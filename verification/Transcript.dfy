/** Messages, the provider-neutral request check, and the call/result discipline it enforces. */
module Transcript {
  import opened Wrappers

  // ----- data model -----

  datatype Role = Custom | System | User | Assistant | Tool

  /** An opaque JSON value; only whether it is an object is ever inspected. */
  datatype Json = JsonObject(id: nat) | JsonOther(id: nat)

  /** The classification of a declared MIME type; `spelling` is the text that declared it. */
  datatype MediaKind = Jpeg | Png | Gif | Webp | OtherImage(name: nat) | NotImage
  datatype Media = Media(kind: MediaKind, spelling: nat)

  /** `wellFormed` stands for the version, identifier and media-text checks of a reference. */
  datatype ArtifactRef = ArtifactRef(id: string, media: Media, bytes: nat, complete: bool, wellFormed: bool)

  datatype ImageSource =
    | Url(url: string)
    | Base64(media: Media, data: string)
    | Artifact(reference: ArtifactRef)

  datatype Status =
    | ModelWithoutVision | IncompleteSource | ImageLimit
    | Unavailable | InvalidImage | ImageTimeout | NormalizedPreview

  /** One entry of the reserved projection field; `Foreign` entries were not written by the host. */
  datatype Notice = Observed(artifact: Option<string>, status: Status) | Foreign(id: nat)
  datatype NoticeField = Entries(entries: seq<Notice>) | NotAnArray(id: nat)

  /** A tool output: every field but the reserved one is opaque. */
  datatype Body = Fields(id: nat) | Wrapped(plain: nat)
  datatype Payload = Plain(id: nat) | Object(body: Body, notices: Option<NoticeField>)

  datatype Block =
    | Text(text: string)
    | Reasoning(thought: string)
    | Image(source: ImageSource)
    | ToolCall(id: string, name: string, arguments: Json)
    | ToolResult(callId: string, payload: Payload, isError: bool)
    | ProviderData(provider: string, data: Json)

  datatype Message = Message(role: Role, content: seq<Block>)

  datatype ModelSpec = ModelSpec(
    provider: string, tools: bool, images: bool, reasoningHistory: bool,
    contextTokens: Option<nat>, maxOutputTokens: Option<nat>)

  const MAX_ARTIFACT_BYTES: nat := 1024 * 1024 * 1024
  const MAX_MESSAGE_IMAGES: nat := 8

  predicate ValidReference(r: ArtifactRef) {
    r.wellFormed && r.bytes <= MAX_ARTIFACT_BYTES && r.media.kind != NotImage
  }

  function ImageCount(bs: seq<Block>): nat {
    if bs == [] then 0 else (if bs[0].Image? then 1 else 0) + ImageCount(bs[1..])
  }

  function ResultCount(bs: seq<Block>): nat {
    if bs == [] then 0 else (if bs[0].ToolResult? then 1 else 0) + ResultCount(bs[1..])
  }

  // ----- the request check -----

  datatype Invalid =
    | EmptyRequest | UnprojectedCustom | EmptyContent | CallsNotAnswered | TooManyImages | UnanchoredImages
    | ToolContent | ToolsUnsupported | ImagesUnsupported | BadArtifact | BadMime | ToolUrl
    | ReasoningUnsupported | ReasoningRole | ForeignProvider | BadCall | DuplicateCall
    | BadResult | OrphanResult | UnresolvedCalls

  /** What one block may not be, whatever calls are pending. */
  function BlockFault(spec: ModelSpec, role: Role, b: Block): Option<Invalid> {
    if role == Tool && !b.ToolResult? && !b.Image? then Some(ToolContent)
    else match b
      case ToolCall(id, name, arguments) =>
        if !spec.tools then Some(ToolsUnsupported)
        else if role != Assistant || id == "" || name == "" || !arguments.JsonObject? then Some(BadCall)
        else None
      case ToolResult(callId, _, _) =>
        if !spec.tools then Some(ToolsUnsupported)
        else if role != Tool || callId == "" then Some(BadResult)
        else None
      case Image(source) =>
        if !spec.images then Some(ImagesUnsupported)
        else (match source
          case Artifact(r) => if role != Tool || !ValidReference(r) then Some(BadArtifact) else None
          case Base64(media, _) => if media.kind == NotImage then Some(BadMime) else None
          case Url(_) => if role == Tool then Some(ToolUrl) else None)
      case Reasoning(_) =>
        if !spec.reasoningHistory then Some(ReasoningUnsupported)
        else if role != Assistant then Some(ReasoningRole)
        else None
      case ProviderData(provider, _) => if provider != spec.provider then Some(ForeignProvider) else None
      case Text(_) => None
  }

  function CheckBlocks(spec: ModelSpec, role: Role, pending: set<string>, bs: seq<Block>)
    : Result<set<string>, Invalid>
    decreases bs
  {
    if bs == [] then Ok(pending)
    else match BlockFault(spec, role, bs[0])
      case Some(fault) => Err(fault)
      case None =>
        match bs[0]
        case ToolCall(id, _, _) =>
          if id in pending then Err(DuplicateCall) else CheckBlocks(spec, role, pending + {id}, bs[1..])
        case ToolResult(callId, _, _) =>
          if callId !in pending then Err(OrphanResult)
          else CheckBlocks(spec, role, pending - {callId}, bs[1..])
        case _ => CheckBlocks(spec, role, pending, bs[1..])
  }

  /** What a message may not be before its blocks are read. */
  function EnvelopeFault(m: Message): Option<Invalid> {
    if m.role == Custom then Some(UnprojectedCustom)
    else if m.content == [] then Some(EmptyContent)
    else None
  }

  function ImageFault(m: Message): Option<Invalid> {
    if m.role == Tool && ImageCount(m.content) > MAX_MESSAGE_IMAGES then Some(TooManyImages)
    else if m.role == Tool && ImageCount(m.content) > 0 && ResultCount(m.content) != 1 then Some(UnanchoredImages)
    else None
  }

  function CheckMessage(spec: ModelSpec, pending: set<string>, m: Message): Result<set<string>, Invalid> {
    if EnvelopeFault(m).Some? then Err(EnvelopeFault(m).value)
    else if m.role != Tool && pending != {} then Err(CallsNotAnswered)
    else if ImageFault(m).Some? then Err(ImageFault(m).value)
    else CheckBlocks(spec, m.role, pending, m.content)
  }

  function CheckMessages(spec: ModelSpec, pending: set<string>, ms: seq<Message>): Result<set<string>, Invalid>
    decreases ms
  {
    if ms == [] then Ok(pending)
    else match CheckMessage(spec, pending, ms[0])
      case Err(e) => Err(e)
      case Ok(p) => CheckMessages(spec, p, ms[1..])
  }

  /** The message part of request validation, as one function of the message list. */
  function Verdict(spec: ModelSpec, ms: seq<Message>): Option<Invalid> {
    if ms == [] then Some(EmptyRequest)
    else match CheckMessages(spec, {}, ms)
      case Err(e) => Some(e)
      case Ok(p) => if p != {} then Some(UnresolvedCalls) else None
  }

  /** The validation loop: one pass over the messages with a mutable set of unanswered call ids. */
  method Validate(spec: ModelSpec, messages: seq<Message>) returns (fault: Option<Invalid>)
    ensures fault == Verdict(spec, messages)
  {
    if messages == [] {
      return Some(EmptyRequest);
    }
    var pending: set<string> := {};
    for i := 0 to |messages|
      invariant CheckMessages(spec, {}, messages) == CheckMessages(spec, pending, messages[i..])
    {
      var m := messages[i];
      assert messages[i..][0] == m && messages[i..][1..] == messages[i + 1..];
      if m.role == Custom {
        return Some(UnprojectedCustom);
      }
      if m.content == [] {
        return Some(EmptyContent);
      }
      if m.role != Tool && pending != {} {
        return Some(CallsNotAnswered);
      }
      if ImageFault(m).Some? {
        return Some(ImageFault(m).value);
      }
      ghost var before := pending;
      for j := 0 to |m.content|
        invariant CheckBlocks(spec, m.role, before, m.content) == CheckBlocks(spec, m.role, pending, m.content[j..])
      {
        var b := m.content[j];
        assert m.content[j..][0] == b && m.content[j..][1..] == m.content[j + 1..];
        var local := BlockFault(spec, m.role, b);
        if local.Some? {
          return local;
        }
        if b.ToolCall? {
          if b.id in pending {
            return Some(DuplicateCall);
          }
          pending := pending + {b.id};
        } else if b.ToolResult? {
          if b.callId !in pending {
            return Some(OrphanResult);
          }
          pending := pending - {b.callId};
        }
      }
    }
    fault := if pending != {} then Some(UnresolvedCalls) else None;
  }

  // ----- the call/result discipline, apart from every other rule -----

  /** Calls and results in reading order; everything else in a message is irrelevant to pairing. */
  datatype Mark = Asked(id: string) | Answered(id: string)

  function MarkOf(b: Block): seq<Mark> {
    match b
    case ToolCall(id, _, _) => [Asked(id)]
    case ToolResult(id, _, _) => [Answered(id)]
    case _ => []
  }

  function Marks(bs: seq<Block>): seq<Mark> {
    if bs == [] then [] else MarkOf(bs[0]) + Marks(bs[1..])
  }

  function Track(pending: set<string>, role: Role, marks: seq<Mark>): Option<set<string>>
    decreases marks
  {
    if marks == [] then Some(pending)
    else match marks[0]
      case Asked(id) =>
        if role != Assistant || id in pending then None else Track(pending + {id}, role, marks[1..])
      case Answered(id) =>
        if role != Tool || id !in pending then None else Track(pending - {id}, role, marks[1..])
  }

  function TrackMessage(pending: set<string>, m: Message): Option<set<string>> {
    if m.role != Tool && pending != {} then None else Track(pending, m.role, Marks(m.content))
  }

  /** The unanswered calls after a list of messages, or None once the discipline is broken. */
  function Open(pending: set<string>, ms: seq<Message>): Option<set<string>>
    decreases ms
  {
    if ms == [] then Some(pending)
    else match TrackMessage(pending, ms[0])
      case None => None
      case Some(p) => Open(p, ms[1..])
  }

  /** Every call is answered by the tool messages that follow it before anything else is said. */
  predicate Paired(ms: seq<Message>) {
    Open({}, ms) == Some({})
  }

  predicate Unobjectionable(spec: ModelSpec, role: Role, bs: seq<Block>) {
    forall b :: b in bs ==> BlockFault(spec, role, b).None?
  }

  /** Everything validation asks of one message on its own. */
  predicate LocallyValid(spec: ModelSpec, m: Message) {
    EnvelopeFault(m).None? && ImageFault(m).None? && Unobjectionable(spec, m.role, m.content)
  }

  predicate AllLocallyValid(spec: ModelSpec, ms: seq<Message>) {
    forall m :: m in ms ==> LocallyValid(spec, m)
  }

  lemma {:induction false} BlocksSplit(spec: ModelSpec, role: Role, pending: set<string>, bs: seq<Block>)
    ensures CheckBlocks(spec, role, pending, bs).Ok? <==>
      Unobjectionable(spec, role, bs) && Track(pending, role, Marks(bs)).Some?
    ensures CheckBlocks(spec, role, pending, bs).Ok? ==>
      Track(pending, role, Marks(bs)) == Some(CheckBlocks(spec, role, pending, bs).value)
    decreases bs
  {
    if bs != [] {
      var b, rest := bs[0], bs[1..];
      UnobjectionableStep(spec, role, bs);
      if b.ToolCall? {
        BlocksSplit(spec, role, pending + {b.id}, rest);
        assert Marks(bs)[0] == Asked(b.id) && Marks(bs)[1..] == Marks(rest);
      } else if b.ToolResult? {
        BlocksSplit(spec, role, pending - {b.callId}, rest);
        assert Marks(bs)[0] == Answered(b.callId) && Marks(bs)[1..] == Marks(rest);
      } else {
        BlocksSplit(spec, role, pending, rest);
        assert Marks(bs) == Marks(rest);
      }
    }
  }

  lemma MessageSplit(spec: ModelSpec, pending: set<string>, m: Message)
    ensures CheckMessage(spec, pending, m).Ok? <==> LocallyValid(spec, m) && TrackMessage(pending, m).Some?
    ensures CheckMessage(spec, pending, m).Ok? ==>
      TrackMessage(pending, m) == Some(CheckMessage(spec, pending, m).value)
  {
    BlocksSplit(spec, m.role, pending, m.content);
  }

  lemma {:induction false} MessagesSplit(spec: ModelSpec, pending: set<string>, ms: seq<Message>)
    ensures CheckMessages(spec, pending, ms).Ok? <==> AllLocallyValid(spec, ms) && Open(pending, ms).Some?
    ensures CheckMessages(spec, pending, ms).Ok? ==>
      Open(pending, ms) == Some(CheckMessages(spec, pending, ms).value)
    decreases ms
  {
    if ms != [] {
      var m, rest := ms[0], ms[1..];
      assert AllLocallyValid(spec, ms) <==> LocallyValid(spec, m) && AllLocallyValid(spec, rest) by {
        assert forall x :: x in ms <==> x == m || x in rest;
      }
      MessageSplit(spec, pending, m);
      if TrackMessage(pending, m).Some? {
        MessagesSplit(spec, TrackMessage(pending, m).value, rest);
      }
    }
  }

  /** Validation accepts exactly the nonempty lists of locally valid messages that are paired. */
  lemma ValidIff(spec: ModelSpec, ms: seq<Message>)
    ensures Verdict(spec, ms).None? <==>
      ms != [] && AllLocallyValid(spec, ms) && Paired(ms)
  {
    MessagesSplit(spec, {}, ms);
  }

  lemma {:induction false} OpenConcat(pending: set<string>, a: seq<Message>, b: seq<Message>)
    ensures Open(pending, a + b) ==
      (match Open(pending, a) case None => None case Some(p) => Open(p, b))
    decreases a
  {
    if a == [] {
      assert a + b == b;
    } else {
      assert (a + b)[0] == a[0] && (a + b)[1..] == a[1..] + b;
      if TrackMessage(pending, a[0]).Some? {
        OpenConcat(TrackMessage(pending, a[0]).value, a[1..], b);
      }
    }
  }

  lemma PairedConcat(a: seq<Message>, b: seq<Message>)
    requires Paired(a)
    ensures Paired(a + b) <==> Paired(b)
  {
    OpenConcat({}, a, b);
  }

  /** A message that neither calls nor answers. */
  predicate Silent(m: Message) {
    m.role != Tool && Marks(m.content) == []
  }

  lemma SilentPaired(m: Message)
    requires Silent(m)
    ensures Paired([m])
  {
    assert [m][1..] == [];
  }

  // ----- what an answered call looks like -----

  function CallIds(marks: seq<Mark>): seq<string> {
    if marks == [] then []
    else (if marks[0].Asked? then [marks[0].id] else []) + CallIds(marks[1..])
  }

  function AnswerIds(ms: seq<Message>): seq<string> {
    if ms == [] then [] else MarkedAnswers(Marks(ms[0].content)) + AnswerIds(ms[1..])
  }

  function MarkedAnswers(marks: seq<Mark>): seq<string> {
    if marks == [] then []
    else (if marks[0].Answered? then [marks[0].id] else []) + MarkedAnswers(marks[1..])
  }

  predicate Distinct(ids: seq<string>) {
    forall i, j :: 0 <= i < j < |ids| ==> ids[i] != ids[j]
  }

  predicate Apart(a: seq<string>, b: seq<string>) {
    forall id :: id in a ==> id !in b
  }

  lemma DistinctConcat(a: seq<string>, b: seq<string>)
    ensures Distinct(a + b) <==> Distinct(a) && Distinct(b) && Apart(a, b)
  {
    var c := a + b;
    if Distinct(c) {
      forall i, j | 0 <= i < j < |a| ensures a[i] != a[j] {
        assert c[i] == a[i] && c[j] == a[j];
      }
      forall i, j | 0 <= i < j < |b| ensures b[i] != b[j] {
        assert c[|a| + i] == b[i] && c[|a| + j] == b[j];
      }
      forall i, j | 0 <= i < |a| && 0 <= j < |b| ensures a[i] != b[j] {
        assert c[i] == a[i] && c[|a| + j] == b[j];
      }
    }
    if Distinct(a) && Distinct(b) && Apart(a, b) {
      forall i, j | 0 <= i < j < |c| ensures c[i] != c[j] {
        if i < |a| <= j {
          assert c[i] in a && c[j] == b[j - |a|];
        } else if |a| <= i {
          assert c[i] == b[i - |a|] && c[j] == b[j - |a|];
        }
      }
    }
  }

  function IdSet(ids: seq<string>): (r: set<string>)
    ensures forall id :: id in r <==> id in ids
  {
    set id | id in ids
  }

  predicate OnlyAsks(marks: seq<Mark>) {
    forall k :: k in marks ==> k.Asked?
  }

  predicate OnlyAnswers(marks: seq<Mark>) {
    forall k :: k in marks ==> k.Answered?
  }

  lemma {:induction false} AskTrack(pending: set<string>, marks: seq<Mark>)
    ensures Track(pending, Assistant, marks).Some? <==>
      && OnlyAsks(marks) && Distinct(CallIds(marks))
      && forall id :: id in CallIds(marks) ==> id !in pending
    ensures Track(pending, Assistant, marks).Some? ==>
      Track(pending, Assistant, marks).value == pending + IdSet(CallIds(marks))
    decreases marks
  {
    if marks != [] {
      var k, rest := marks[0], marks[1..];
      assert forall x :: x in marks <==> x == k || x in rest;
      if k.Asked? {
        AskTrack(pending + {k.id}, rest);
        assert CallIds(marks) == [k.id] + CallIds(rest);
        DistinctConcat([k.id], CallIds(rest));
      }
    }
  }

  lemma {:induction false} AnswerTrack(pending: set<string>, marks: seq<Mark>)
    ensures Track(pending, Tool, marks).Some? <==>
      && OnlyAnswers(marks) && Distinct(MarkedAnswers(marks))
      && forall id :: id in MarkedAnswers(marks) ==> id in pending
    ensures Track(pending, Tool, marks).Some? ==>
      Track(pending, Tool, marks).value == pending - IdSet(MarkedAnswers(marks))
    decreases marks
  {
    if marks != [] {
      var k, rest := marks[0], marks[1..];
      assert forall x :: x in marks <==> x == k || x in rest;
      if k.Answered? {
        AnswerTrack(pending - {k.id}, rest);
        assert MarkedAnswers(marks) == [k.id] + MarkedAnswers(rest);
        DistinctConcat([k.id], MarkedAnswers(rest));
      }
    }
  }

  lemma {:induction false} AnswersOpen(pending: set<string>, tools: seq<Message>)
    requires forall m :: m in tools ==> m.role == Tool
    ensures Open(pending, tools).Some? <==>
      && (forall m :: m in tools ==> OnlyAnswers(Marks(m.content)))
      && Distinct(AnswerIds(tools))
      && forall id :: id in AnswerIds(tools) ==> id in pending
    ensures Open(pending, tools).Some? ==>
      Open(pending, tools).value == pending - IdSet(AnswerIds(tools))
    decreases tools
  {
    if tools != [] {
      var m, rest := tools[0], tools[1..];
      var here, later := MarkedAnswers(Marks(m.content)), AnswerIds(rest);
      assert forall x :: x in tools <==> x == m || x in rest;
      AnswerTrack(pending, Marks(m.content));
      DistinctConcat(here, later);
      assert AnswerIds(tools) == here + later;
      AnswersOpen(pending - IdSet(here), rest);
    }
  }

  /**
   A calling message and the tool messages after it are paired exactly when its call ids are
   distinct and the results name each of them exactly once, in any order.
   */
  lemma AnsweredCallsIff(caller: Message, tools: seq<Message>)
    requires caller.role == Assistant
    requires forall m :: m in tools ==> m.role == Tool
    ensures
      var calls, answers := CallIds(Marks(caller.content)), AnswerIds(tools);
      Paired([caller] + tools) <==>
        && OnlyAsks(Marks(caller.content)) && Distinct(calls)
        && (forall m :: m in tools ==> OnlyAnswers(Marks(m.content))) && Distinct(answers)
        && IdSet(answers) == IdSet(calls)
  {
    var calls, answers := CallIds(Marks(caller.content)), AnswerIds(tools);
    AskTrack({}, Marks(caller.content));
    assert ([caller] + tools)[0] == caller && ([caller] + tools)[1..] == tools;
    assert {} + IdSet(calls) == IdSet(calls);
    AnswersOpen(IdSet(calls), tools);
    assert IdSet(calls) - IdSet(answers) == {} <==> forall id :: id in calls ==> id in answers;
  }

  // ----- counting blocks -----

  lemma {:induction false} CountsConcat(a: seq<Block>, b: seq<Block>)
    ensures ImageCount(a + b) == ImageCount(a) + ImageCount(b)
    ensures ResultCount(a + b) == ResultCount(a) + ResultCount(b)
  {
    if a == [] {
      assert a + b == b;
    } else {
      assert (a + b)[0] == a[0] && (a + b)[1..] == a[1..] + b;
      CountsConcat(a[1..], b);
    }
  }

  lemma {:induction false} CountsBound(bs: seq<Block>)
    ensures ImageCount(bs) + ResultCount(bs) <= |bs|
  {
    if bs != [] {
      CountsBound(bs[1..]);
    }
  }

  lemma UnobjectionableStep(spec: ModelSpec, role: Role, bs: seq<Block>)
    requires bs != []
    ensures Unobjectionable(spec, role, bs) <==>
      BlockFault(spec, role, bs[0]).None? && Unobjectionable(spec, role, bs[1..])
  {
    assert forall b :: b in bs <==> b == bs[0] || b in bs[1..];
  }

  lemma CountsOne(b: Block)
    ensures ImageCount([b]) == (if b.Image? then 1 else 0) && ResultCount([b]) == (if b.ToolResult? then 1 else 0)
    ensures ImageCount([]) == 0 && ResultCount([]) == 0
  {
    assert [b][1..] == [];
  }

  // ----- what each kind of block asks for -----

  /** Text and foreign state stay out of tool messages; calls, reasoning, results and artifacts have their own role. */
  predicate Permitted(spec: ModelSpec, role: Role, b: Block) {
    match b
    case Text(_) => role != Tool
    case ProviderData(provider, _) => role != Tool && provider == spec.provider
    case Reasoning(_) => role == Assistant && spec.reasoningHistory
    case ToolCall(id, name, arguments) =>
      role == Assistant && spec.tools && |id| > 0 && |name| > 0 && arguments.JsonObject?
    case ToolResult(callId, _, _) => role == Tool && spec.tools && |callId| > 0
    case Image(Url(_)) => role != Tool && spec.images
    case Image(Base64(media, _)) => spec.images && media.kind != NotImage
    case Image(Artifact(r)) =>
      role == Tool && spec.images && r.wellFormed && r.bytes <= 1073741824 && r.media.kind != NotImage
  }

  lemma BlockRules(spec: ModelSpec, role: Role, b: Block)
    ensures BlockFault(spec, role, b).None? <==> Permitted(spec, role, b)
  {}

  /** A message is fit on its own exactly when it was projected, says something, and each block is permitted. */
  lemma MessageRules(spec: ModelSpec, m: Message)
    ensures LocallyValid(spec, m) <==>
      && m.role != Custom && |m.content| > 0
      && (forall i :: 0 <= i < |m.content| ==> Permitted(spec, m.role, m.content[i]))
      && (m.role == Tool && ImageCount(m.content) > 0 ==>
            ImageCount(m.content) <= 8 && ResultCount(m.content) == 1)
  {
    forall i | 0 <= i < |m.content|
      ensures BlockFault(spec, m.role, m.content[i]).None? <==> Permitted(spec, m.role, m.content[i])
    {
      BlockRules(spec, m.role, m.content[i]);
    }
    assert Unobjectionable(spec, m.role, m.content) <==>
      forall i :: 0 <= i < |m.content| ==> BlockFault(spec, m.role, m.content[i]).None?;
  }
}
