/** What the projection shows, block by block, without its running budget. */
module Projection {
  import opened Wrappers
  import opened Transcript
  import opened ModelView

  // ----- the reference -----

  /** A model may be shown a tool image at all: it sees images, and an artifact is whole and at most eight MiB. */
  predicate Showable(spec: ModelSpec, source: ImageSource) {
    spec.images && (source.Artifact? ==> source.reference.complete && source.reference.bytes <= 8388608)
  }

  predicate ToolImage(role: Role, b: Block) {
    role == Tool && b.Image?
  }

  /** How many tool images among these blocks a model may be shown. */
  function Showables(spec: ModelSpec, role: Role, bs: seq<Block>): nat {
    if bs == [] then 0
    else (if ToolImage(role, bs[0]) && Showable(spec, bs[0].source) then 1 else 0) + Showables(spec, role, bs[1..])
  }

  function ShowablesIn(spec: ModelSpec, ms: seq<Message>): nat {
    if ms == [] then 0 else Showables(spec, ms[0].role, ms[0].content) + ShowablesIn(spec, ms[1..])
  }

  /** Whether a block is shown when `newer` showable tool images come after it. */
  predicate Shown(spec: ModelSpec, role: Role, b: Block, newer: nat) {
    if ToolImage(role, b) then Showable(spec, b.source) && newer < 4
    else role == Assistant && b.Reasoning? ==> spec.reasoningHistory
  }

  function Piece(spec: ModelSpec, role: Role, b: Block, newer: nat): seq<Block> {
    if Shown(spec, role, b, newer) then [b] else []
  }

  function ShownBlocks(spec: ModelSpec, role: Role, bs: seq<Block>, newer: nat): seq<Block> {
    if bs == [] then []
    else
      Piece(spec, role, bs[0], newer + Showables(spec, role, bs[1..])) + ShownBlocks(spec, role, bs[1..], newer)
  }

  /** Why a tool image is not shown: the model sees none, the source is cut off, or there is no room for it. */
  function WhyNot(spec: ModelSpec, source: ImageSource): Status {
    if !spec.images then ModelWithoutVision
    else if source.Artifact? && !source.reference.complete then IncompleteSource
    else ImageLimit
  }

  function Notices(spec: ModelSpec, b: Block, newer: nat): seq<Notice> {
    if b.Image? && !Shown(spec, Tool, b, newer) then [Observed(ReferenceId(b.source), WhyNot(spec, b.source))] else []
  }

  /** One notice for each tool image that is not shown, the newest first. */
  function Missing(spec: ModelSpec, bs: seq<Block>, newer: nat): seq<Notice> {
    if bs == [] then []
    else Missing(spec, bs[1..], newer) + Notices(spec, bs[0], newer + Showables(spec, Tool, bs[1..]))
  }

  function FirstEight(ns: seq<Notice>): seq<Notice> {
    if |ns| <= 8 then ns else ns[..8]
  }

  /** A tool output with notices added to the reserved field: a bare value is wrapped, eight entries are the most. */
  function Noted(p: Payload, ns: seq<Notice>): Payload {
    match p
    case Plain(id) => Object(Wrapped(id), Some(Entries(FirstEight(ns))))
    case Object(body, None) => Object(body, Some(Entries(FirstEight(ns))))
    case Object(body, Some(Entries(es))) => Object(body, Some(Entries(if |es| < 8 then FirstEight(es + ns) else es)))
    case Object(_, Some(NotAnArray(_))) => p
  }

  /** The position of the first tool result, or the length. */
  function FirstResult(bs: seq<Block>): (i: nat)
    ensures i <= |bs| && (i < |bs| ==> bs[i].ToolResult?) && forall j :: 0 <= j < i ==> !bs[j].ToolResult?
  {
    if bs == [] || bs[0].ToolResult? then 0 else 1 + FirstResult(bs[1..])
  }

  /** Notices go to the first tool result; without one, or without notices, nothing changes. */
  function WithNotices(bs: seq<Block>, ns: seq<Notice>): seq<Block> {
    var i := FirstResult(bs);
    if ns == [] || i == |bs| then bs else bs[i := bs[i].(payload := Noted(bs[i].payload, ns))]
  }

  /** A tool result without the reserved field. */
  function Unmarked(b: Block): Block {
    if b.ToolResult? && b.payload.Object? then b.(payload := Object(b.payload.body, None)) else b
  }

  function UnmarkedAll(bs: seq<Block>): seq<Block> {
    if bs == [] then [] else [Unmarked(bs[0])] + UnmarkedAll(bs[1..])
  }

  /** One message when `newer` showable tool images come after it: nothing, or what is shown of it. */
  function ShownMessage(spec: ModelSpec, m: Message, newer: nat): seq<Message> {
    var content := ShownBlocks(spec, m.role, m.content, newer);
    if m.role == Assistant && !spec.reasoningHistory && content == [] then []
    else if m.role == Tool && exists b :: b in m.content && b.Image? then
      [Message(Tool, WithNotices(UnmarkedAll(content), FirstEight(Missing(spec, m.content, newer))))]
    else [Message(if m.role == Custom then User else m.role, content)]
  }

  /** Each message is shown on its own, given how many showable tool images come after it. */
  function Spread(spec: ModelSpec, show: (Message, nat) -> seq<Message>, ms: seq<Message>, newer: nat): seq<Message> {
    if ms == [] then []
    else show(ms[0], newer + ShowablesIn(spec, ms[1..])) + Spread(spec, show, ms[1..], newer)
  }

  function Show(spec: ModelSpec): (Message, nat) -> seq<Message> {
    (m: Message, newer: nat) => ShownMessage(spec, m, newer)
  }

  function ShownMessages(spec: ModelSpec, ms: seq<Message>): seq<Message> {
    Spread(spec, Show(spec), ms, 0)
  }

  // ----- notices -----

  lemma NotedOneMore(p: Payload, n: Notice, ns: seq<Notice>)
    ensures Noted(Annotate(p, n), ns) == Noted(p, [n] + ns)
  {
    match p
    case Plain(_) =>
      assert |[n] + ns| <= 8 ==> [n] + ns == FirstEight([n] + ns);
    case Object(body, Some(Entries(es))) =>
      if |es| < MAX_NOTICES {
        assert es + [n] + ns == es + ([n] + ns);
        assert |es| == 7 ==> FirstEight(es + ([n] + ns)) == es + [n];
      }
    case _ =>
  }

  lemma NotedOne(p: Payload, n: Notice)
    ensures Annotate(p, n) == Noted(p, [n])
  {}

  lemma {:induction false} AddedToFirst(bs: seq<Block>, n: Notice)
    ensures AddNotice(bs, n) == WithNotices(bs, [n])
    ensures FirstResult(AddNotice(bs, n)) == FirstResult(bs)
    decreases bs
  {
    if bs != [] {
      if bs[0].ToolResult? {
        NotedOne(bs[0].payload, n);
        assert AddNotice(bs, n) == bs[0 := AddNotice(bs, n)[0]];
      } else {
        AddedToFirst(bs[1..], n);
        assert AddNotice(bs, n)[1..] == AddNotice(bs[1..], n);
      }
    }
  }

  /** Adding notices one by one is adding them all to the first result, cut at eight. */
  lemma {:induction false} NoticesLand(bs: seq<Block>, ns: seq<Notice>)
    ensures AddNotices(bs, ns) == WithNotices(bs, ns)
    decreases ns
  {
    if ns != [] {
      var one := AddNotice(bs, ns[0]);
      AddedToFirst(bs, ns[0]);
      NoticesLand(one, ns[1..]);
      var i := FirstResult(bs);
      assert ns == [ns[0]] + ns[1..];
      if i < |bs| {
        NotedOne(bs[i].payload, ns[0]);
        NotedOneMore(bs[i].payload, ns[0], ns[1..]);
        assert one == bs[i := one[i]];
        assert ns[1..] == [] ==> ns == [ns[0]];
      }
    }
  }

  // ----- the budget is a count of what is newer -----

  function Room(newer: nat): nat {
    SatSub(MAX_TOOL_IMAGES, newer)
  }

  /** How much a block takes of the room of older ones. */
  function Weight(spec: ModelSpec, role: Role, b: Block): nat {
    if ToolImage(role, b) && Showable(spec, b.source) then 1 else 0
  }

  lemma {:induction false} ShowablesPush(spec: ModelSpec, role: Role, bs: seq<Block>, b: Block)
    ensures Showables(spec, role, bs + [b]) == Showables(spec, role, bs) + Weight(spec, role, b)
    decreases bs
  {
    if bs == [] {
      assert bs + [b] == [b] && [b][1..] == [];
    } else {
      ShowablesPush(spec, role, bs[1..], b);
      assert (bs + [b])[0] == bs[0] && (bs + [b])[1..] == bs[1..] + [b];
    }
  }

  lemma {:induction false} ShownPush(spec: ModelSpec, role: Role, bs: seq<Block>, b: Block, newer: nat)
    ensures ShownBlocks(spec, role, bs + [b], newer) ==
      ShownBlocks(spec, role, bs, newer + Weight(spec, role, b)) + Piece(spec, role, b, newer)
    decreases bs
  {
    if bs == [] {
      assert bs + [b] == [b] && [b][1..] == [];
      assert [] + Piece(spec, role, b, newer) == Piece(spec, role, b, newer) + [];
    } else {
      var rest := bs[1..];
      assert (bs + [b])[0] == bs[0] && (bs + [b])[1..] == rest + [b];
      ShowablesPush(spec, role, rest, b);
      ShownPush(spec, role, rest, b, newer);
      PushBehind(ShownBlocks(spec, role, rest + [b], newer),
                 Piece(spec, role, bs[0], newer + Showables(spec, role, rest + [b])),
                 ShownBlocks(spec, role, rest, newer + Weight(spec, role, b)), Piece(spec, role, b, newer));
    }
  }

  lemma PushBehind<X>(all: seq<X>, first: seq<X>, rest: seq<X>, last: seq<X>)
    requires all == rest + last
    ensures first + all == (first + rest) + last
  {
    Assoc(first, rest, last);
  }

  lemma {:induction false} MissingPush(spec: ModelSpec, bs: seq<Block>, b: Block, newer: nat)
    ensures Missing(spec, bs + [b], newer) ==
      Notices(spec, b, newer) + Missing(spec, bs, newer + Weight(spec, Tool, b))
    decreases bs
  {
    var here := Notices(spec, b, newer);
    if bs == [] {
      assert bs + [b] == [b] && [b][1..] == [] && [] + here == here + [];
    } else {
      var rest, later := bs[1..], newer + Weight(spec, Tool, b);
      MissingPush(spec, rest, b, newer);
      ShowablesPush(spec, Tool, rest, b);
      assert (bs + [b])[0] == bs[0] && (bs + [b])[1..] == rest + [b];
      Assoc(here, Missing(spec, rest, later), Notices(spec, bs[0], later + Showables(spec, Tool, rest)));
    }
  }

  /** A rejection is the reason why an image is not shown. */
  lemma RejectedIff(spec: ModelSpec, source: ImageSource, newer: nat)
    ensures Rejection(spec, source, Room(newer)) ==
      if Shown(spec, Tool, Image(source), newer) then None else Some(WhyNot(spec, source))
    ensures Shown(spec, Tool, Image(source), newer) ==> Room(newer) - 1 == Room(newer + 1)
    ensures !Shown(spec, Tool, Image(source), newer) ==>
      Room(newer) == Room(newer + Weight(spec, Tool, Image(source)))
  {}

  lemma {:induction false} StripIsUnmarked(bs: seq<Block>)
    ensures StripNotices(bs) == UnmarkedAll(bs)
    decreases bs
  {
    if bs != [] {
      StripIsUnmarked(bs[1..]);
    }
  }

  /** The newest-first selection keeps the blocks that are shown and notes the images that are not. */
  lemma {:induction false} SelectShows(spec: ModelSpec, bs: seq<Block>, newer: nat)
    ensures Select(spec, bs, Room(newer)) ==
      Selection(ShownBlocks(spec, Tool, bs, newer), Room(newer + Showables(spec, Tool, bs)), Missing(spec, bs, newer))
    decreases bs
  {
    if bs != [] {
      var older, b := bs[..|bs| - 1], bs[|bs| - 1];
      assert bs == older + [b];
      ShownPush(spec, Tool, older, b, newer);
      MissingPush(spec, older, b, newer);
      ShowablesPush(spec, Tool, older, b);
      SelectShows(spec, older, newer + Weight(spec, Tool, b));
      SelectOne(spec, older, b, newer);
    }
  }

  lemma SelectOne(spec: ModelSpec, older: seq<Block>, b: Block, newer: nat)
    ensures
      var rest := Select(spec, older, Room(newer + Weight(spec, Tool, b)));
      Select(spec, older + [b], Room(newer)) ==
        Selection(rest.kept + Piece(spec, Tool, b, newer), rest.remaining,
                  Notices(spec, b, newer) + rest.notices)
  {
    SelectStep(spec, older, b, Room(newer));
    if b.Image? {
      RejectedIff(spec, b.source, newer);
    }
  }

  /** The reserved field has no part in what is shown. */
  lemma {:induction false} UnmarkedShows(spec: ModelSpec, bs: seq<Block>, newer: nat)
    ensures Showables(spec, Tool, UnmarkedAll(bs)) == Showables(spec, Tool, bs)
    ensures ShownBlocks(spec, Tool, UnmarkedAll(bs), newer) == UnmarkedAll(ShownBlocks(spec, Tool, bs, newer))
    ensures Missing(spec, UnmarkedAll(bs), newer) == Missing(spec, bs, newer)
    decreases bs
  {
    if bs != [] {
      UnmarkedShows(spec, bs[1..], newer);
      assert UnmarkedAll(bs)[1..] == UnmarkedAll(bs[1..]);
      var rest := ShownBlocks(spec, Tool, bs[1..], newer);
      assert ([bs[0]] + rest)[1..] == rest && [] + rest == rest;
    }
  }

  // ----- messages -----

  lemma {:induction false} AssistantShows(spec: ModelSpec, bs: seq<Block>, newer: nat)
    requires !spec.reasoningHistory
    ensures DropReasoning(bs) == ShownBlocks(spec, Assistant, bs, newer)
    ensures Showables(spec, Assistant, bs) == 0
    decreases bs
  {
    if bs != [] {
      AssistantShows(spec, bs[1..], newer);
    }
  }

  /** A message that needs no rewriting is shown whole. */
  lemma {:induction false} ShownWhole(spec: ModelSpec, role: Role, bs: seq<Block>, newer: nat)
    requires role == Assistant ==> spec.reasoningHistory
    requires role == Tool ==> !HasImage(bs)
    ensures ShownBlocks(spec, role, bs, newer) == bs && Showables(spec, role, bs) == 0
    decreases bs
  {
    if bs != [] {
      assert bs[0] in bs && forall b :: b in bs[1..] ==> b in bs;
      ShownWhole(spec, role, bs[1..], newer);
    }
  }

  lemma ToolShows(spec: ModelSpec, m: Message, newer: nat)
    requires m.role == Tool && HasImage(m.content)
    ensures
      var content := UnmarkedAll(ShownBlocks(spec, Tool, m.content, newer));
      ViewMessage(spec, m, Room(newer)) ==
        Viewing([Message(Tool, WithNotices(content, FirstEight(Missing(spec, m.content, newer))))],
                Room(newer + Showables(spec, Tool, m.content)))
  {
    StrippedShows(spec, m.content, newer);
    var s := Select(spec, StripNotices(m.content), Room(newer));
    NoticesLand(s.kept, Upto(s.notices, MAX_NOTICES));
  }

  lemma StrippedShows(spec: ModelSpec, bs: seq<Block>, newer: nat)
    ensures Select(spec, StripNotices(bs), Room(newer)) ==
      Selection(UnmarkedAll(ShownBlocks(spec, Tool, bs, newer)), Room(newer + Showables(spec, Tool, bs)),
                Missing(spec, bs, newer))
  {
    StripIsUnmarked(bs);
    UnmarkedShows(spec, bs, newer);
    SelectShows(spec, UnmarkedAll(bs), newer);
  }

  lemma ViewMessageShows(spec: ModelSpec, m: Message, newer: nat)
    ensures ViewMessage(spec, m, Room(newer)) ==
      Viewing(ShownMessage(spec, m, newer), Room(newer + Showables(spec, m.role, m.content)))
  {
    if m.role == Tool && HasImage(m.content) {
      ToolShows(spec, m, newer);
    } else if m.role == Assistant && !spec.reasoningHistory {
      AssistantShows(spec, m.content, newer);
    } else {
      ShownWhole(spec, m.role, m.content, newer);
    }
  }

  lemma {:induction false} ShowablesInPush(spec: ModelSpec, ms: seq<Message>, m: Message)
    ensures ShowablesIn(spec, ms + [m]) == ShowablesIn(spec, ms) + Showables(spec, m.role, m.content)
    decreases ms
  {
    if ms == [] {
      assert ms + [m] == [m] && [m][1..] == [];
    } else {
      ShowablesInPush(spec, ms[1..], m);
      assert (ms + [m])[0] == ms[0] && (ms + [m])[1..] == ms[1..] + [m];
    }
  }

  lemma {:induction false} SpreadPush(
    spec: ModelSpec, show: (Message, nat) -> seq<Message>, ms: seq<Message>, m: Message, newer: nat)
    ensures Spread(spec, show, ms + [m], newer) ==
      Spread(spec, show, ms, newer + Showables(spec, m.role, m.content)) + show(m, newer)
    decreases ms
  {
    if ms == [] {
      assert ms + [m] == [m] && [m][1..] == [];
    } else {
      var rest, later := ms[1..], newer + Showables(spec, m.role, m.content);
      SpreadPush(spec, show, rest, m, newer);
      ShowablesInPush(spec, rest, m);
      assert (ms + [m])[0] == ms[0] && (ms + [m])[1..] == rest + [m];
      Assoc(show(ms[0], later + ShowablesIn(spec, rest)), Spread(spec, show, rest, later), show(m, newer));
    }
  }

  lemma {:induction false} ViewSpreads(
    spec: ModelSpec, show: (Message, nat) -> seq<Message>, ms: seq<Message>, newer: nat)
    requires forall m: Message, n: nat ::
      ViewMessage(spec, m, Room(n)) == Viewing(show(m, n), Room(n + Showables(spec, m.role, m.content)))
    ensures View(spec, ms, Room(newer)).messages == Spread(spec, show, ms, newer)
    decreases ms
  {
    if ms != [] {
      var older, m := ms[..|ms| - 1], ms[|ms| - 1];
      assert ms == older + [m];
      ViewSpreads(spec, show, older, newer + Showables(spec, m.role, m.content));
      SpreadPush(spec, show, older, m, newer);
    }
  }

  /** Something in the transcript has to be rewritten: a host message, hidden reasoning, or a picture from a tool. */
  predicate NeedsRewriting(spec: ModelSpec, ms: seq<Message>) {
    exists m <- ms ::
      || m.role.Custom?
      || (m.role.Assistant? && !spec.reasoningHistory && exists b <- m.content :: b.Reasoning?)
      || (m.role.Tool? && exists b <- m.content :: b.Image?)
  }

  lemma ChangesIff(spec: ModelSpec, ms: seq<Message>)
    ensures Changes(spec, ms) <==> NeedsRewriting(spec, ms)
  {
    forall m <- ms
      ensures Rewritten(spec, m) <==>
        || m.role.Custom?
        || (m.role.Assistant? && !spec.reasoningHistory && exists b <- m.content :: b.Reasoning?)
        || (m.role.Tool? && exists b <- m.content :: b.Image?)
    {}
  }

  /**
   The whole view, without a running budget: what is shown of a block depends only on the block, on its message's
   role and on how many showable tool images come after it. A transcript that needs no rewriting is shown as it is.
   */
  lemma ProjectionExact(spec: ModelSpec, ms: seq<Message>)
    ensures Project(spec, ms) == if NeedsRewriting(spec, ms) then ShownMessages(spec, ms) else ms
  {
    ChangesIff(spec, ms);
    forall m: Message, n: nat
      ensures ViewMessage(spec, m, Room(n)) ==
        Viewing(Show(spec)(m, n), Room(n + Showables(spec, m.role, m.content)))
    {
      ViewMessageShows(spec, m, n);
    }
    ViewSpreads(spec, Show(spec), ms, 0);
  }

  // ----- what was said survives -----

  /** A tool output without the reserved field and without the wrapping of a bare value. */
  function Spoken(b: Block): Block {
    if !b.ToolResult? then b
    else
      match b.payload
      case Plain(_) => b
      case Object(Wrapped(id), _) => b.(payload := Plain(id))
      case Object(Fields(id), _) => b.(payload := Object(Fields(id), None))
  }

  /** Everything but tool images, and but reasoning that the model is not to see again. */
  function SaidBlocks(spec: ModelSpec, role: Role, bs: seq<Block>): seq<Block> {
    if bs == [] then []
    else if ToolImage(role, bs[0]) || (role == Assistant && bs[0].Reasoning? && !spec.reasoningHistory) then
      SaidBlocks(spec, role, bs[1..])
    else [Spoken(bs[0])] + SaidBlocks(spec, role, bs[1..])
  }

  /** What one message says, and who says it. */
  function Say(spec: ModelSpec): Message -> seq<Message> {
    (m: Message) =>
      var content := SaidBlocks(spec, m.role, m.content);
      if content == [] then [] else [Message(if m.role == Custom then User else m.role, content)]
  }

  function Gather(say: Message -> seq<Message>, ms: seq<Message>): seq<Message> {
    if ms == [] then [] else say(ms[0]) + Gather(say, ms[1..])
  }

  /** Who said what, message by message. */
  function Said(spec: ModelSpec, ms: seq<Message>): seq<Message> {
    Gather(Say(spec), ms)
  }

  lemma {:induction false} ShownKeepsSaid(spec: ModelSpec, role: Role, bs: seq<Block>, newer: nat)
    ensures SaidBlocks(spec, role, ShownBlocks(spec, role, bs, newer)) == SaidBlocks(spec, role, bs)
    decreases bs
  {
    if bs != [] {
      var rest := ShownBlocks(spec, role, bs[1..], newer);
      ShownKeepsSaid(spec, role, bs[1..], newer);
      assert ([bs[0]] + rest)[1..] == rest && [] + rest == rest;
    }
  }

  lemma {:induction false} SameSaid(spec: ModelSpec, role: Role, a: seq<Block>, b: seq<Block>)
    requires |a| == |b| && forall i :: 0 <= i < |a| ==> Spoken(a[i]) == Spoken(b[i]) && a[i].Image? == b[i].Image?
    requires forall i :: 0 <= i < |a| ==> a[i].Reasoning? == b[i].Reasoning?
    ensures SaidBlocks(spec, role, a) == SaidBlocks(spec, role, b)
    decreases a
  {
    if a != [] {
      SameSaid(spec, role, a[1..], b[1..]);
    }
  }

  lemma MessageKeepsSaid(spec: ModelSpec, m: Message, newer: nat)
    ensures Gather(Say(spec), ShownMessage(spec, m, newer)) == Say(spec)(m)
  {
    var content := ShownBlocks(spec, m.role, m.content, newer);
    ShownKeepsSaid(spec, m.role, m.content, newer);
    if m.role == Tool && exists b :: b in m.content && b.Image? {
      var notices := FirstEight(Missing(spec, m.content, newer));
      NotesKeepSaid(spec, content, notices);
      GatherOne(Say(spec), Message(Tool, WithNotices(UnmarkedAll(content), notices)));
    } else {
      UserAsCustom(spec, content);
      GatherOne(Say(spec), Message(if m.role == Custom then User else m.role, content));
    }
  }

  lemma NotesKeepSaid(spec: ModelSpec, bs: seq<Block>, ns: seq<Notice>)
    ensures SaidBlocks(spec, Tool, WithNotices(UnmarkedAll(bs), ns)) == SaidBlocks(spec, Tool, bs)
  {
    UnmarkedKeepsSaid(spec, bs);
    SameSaid(spec, Tool, WithNotices(UnmarkedAll(bs), ns), UnmarkedAll(bs));
  }

  lemma {:induction false} UnmarkedKeepsSaid(spec: ModelSpec, bs: seq<Block>)
    ensures SaidBlocks(spec, Tool, UnmarkedAll(bs)) == SaidBlocks(spec, Tool, bs)
    decreases bs
  {
    if bs != [] {
      UnmarkedKeepsSaid(spec, bs[1..]);
      assert UnmarkedAll(bs)[1..] == UnmarkedAll(bs[1..]);
    }
  }

  lemma GatherOne(say: Message -> seq<Message>, m: Message)
    ensures Gather(say, [m]) == say(m)
  {
    assert [m][1..] == [] && say(m) + [] == say(m);
  }

  lemma {:induction false} UserAsCustom(spec: ModelSpec, bs: seq<Block>)
    ensures SaidBlocks(spec, User, bs) == SaidBlocks(spec, Custom, bs)
    decreases bs
  {
    if bs != [] {
      UserAsCustom(spec, bs[1..]);
    }
  }

  lemma {:induction false} GatherConcat(say: Message -> seq<Message>, a: seq<Message>, b: seq<Message>)
    ensures Gather(say, a + b) == Gather(say, a) + Gather(say, b)
    decreases a
  {
    if a == [] {
      assert a + b == b;
    } else {
      GatherConcat(say, a[1..], b);
      assert (a + b)[0] == a[0] && (a + b)[1..] == a[1..] + b;
      Assoc(say(a[0]), Gather(say, a[1..]), Gather(say, b));
    }
  }

  lemma {:induction false} SpreadGathers(
    spec: ModelSpec, show: (Message, nat) -> seq<Message>, say: Message -> seq<Message>, ms: seq<Message>, newer: nat)
    requires forall m: Message, n: nat :: Gather(say, show(m, n)) == say(m)
    ensures Gather(say, Spread(spec, show, ms, newer)) == Gather(say, ms)
    decreases ms
  {
    if ms != [] {
      SpreadGathers(spec, show, say, ms[1..], newer);
      GatherConcat(say, show(ms[0], newer + ShowablesIn(spec, ms[1..])), Spread(spec, show, ms[1..], newer));
    }
  }

  /** Projection loses nothing that was said, keeps the order, and attributes it to the same speaker. */
  lemma SaidSurvives(spec: ModelSpec, ms: seq<Message>)
    ensures Said(spec, Project(spec, ms)) == Said(spec, ms)
  {
    ProjectionExact(spec, ms);
    forall m: Message, n: nat ensures Gather(Say(spec), Show(spec)(m, n)) == Say(spec)(m) {
      MessageKeepsSaid(spec, m, n);
    }
    SpreadGathers(spec, Show(spec), Say(spec), ms, 0);
  }

  lemma {:induction false} ShownNoReasoning(spec: ModelSpec, bs: seq<Block>, newer: nat)
    requires !spec.reasoningHistory
    ensures forall b :: b in ShownBlocks(spec, Assistant, bs, newer) ==> !b.Reasoning?
    decreases bs
  {
    if bs != [] {
      ShownNoReasoning(spec, bs[1..], newer);
    }
  }

  predicate Silent(ms: seq<Message>) {
    forall m :: m in ms && m.role == Assistant ==> !HasReasoning(m.content)
  }

  lemma {:induction false} SpreadSilent(
    spec: ModelSpec, show: (Message, nat) -> seq<Message>, ms: seq<Message>, newer: nat)
    requires forall m: Message, n: nat :: Silent(show(m, n))
    ensures Silent(Spread(spec, show, ms, newer))
    decreases ms
  {
    if ms != [] {
      SpreadSilent(spec, show, ms[1..], newer);
      assert Silent(show(ms[0], newer + ShowablesIn(spec, ms[1..])));
    }
  }

  /** A model without reasoning history is never shown an assistant's reasoning. */
  lemma NoReasoningShown(spec: ModelSpec, ms: seq<Message>)
    requires !spec.reasoningHistory
    ensures forall m :: m in Project(spec, ms) && m.role == Assistant ==> !HasReasoning(m.content)
  {
    ProjectionExact(spec, ms);
    forall m: Message, n: nat ensures Silent(Show(spec)(m, n)) {
      ShownNoReasoning(spec, m.content, n);
    }
    SpreadSilent(spec, Show(spec), ms, 0);
    ChangesIff(spec, ms);
    assert !Changes(spec, ms) ==> forall m :: m in ms ==> !Rewritten(spec, m);
  }
}
