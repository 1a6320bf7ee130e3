/** The ephemeral view of a transcript that one model is shown. */
module ModelView {
  import opened Wrappers
  import opened Transcript

  const MAX_TOOL_IMAGES: nat := 4
  const MAX_TOOL_IMAGE_SOURCE_BYTES: nat := 8 * 1024 * 1024
  const MAX_NOTICES: nat := 8

  // ----- the reserved notice field of a tool result -----

  function StripPayload(p: Payload): Payload {
    if p.Object? then p.(notices := None) else p
  }

  function StripNotices(bs: seq<Block>): seq<Block> {
    if bs == [] then []
    else [if bs[0].ToolResult? then bs[0].(payload := StripPayload(bs[0].payload)) else bs[0]] + StripNotices(bs[1..])
  }

  /** Append one observation, wrapping a bare value and never growing past eight entries. */
  function Annotate(p: Payload, n: Notice): Payload {
    match p
    case Plain(id) => Object(Wrapped(id), Some(Entries([n])))
    case Object(body, None) => Object(body, Some(Entries([n])))
    case Object(body, Some(Entries(es))) => if |es| < MAX_NOTICES then Object(body, Some(Entries(es + [n]))) else p
    case Object(_, Some(NotAnArray(_))) => p
  }

  /** Annotate the first result of a message, if it has one. */
  function AddNotice(bs: seq<Block>, n: Notice): seq<Block> {
    if bs == [] then []
    else if bs[0].ToolResult? then [bs[0].(payload := Annotate(bs[0].payload, n))] + bs[1..]
    else [bs[0]] + AddNotice(bs[1..], n)
  }

  function AddNotices(bs: seq<Block>, ns: seq<Notice>): seq<Block>
    decreases ns
  {
    if ns == [] then bs else AddNotices(AddNotice(bs, ns[0]), ns[1..])
  }

  // ----- selection -----

  function ReferenceId(source: ImageSource): Option<string> {
    if source.Artifact? then Some(source.reference.id) else None
  }

  /** Whether an image may be shown at all, budget aside. */
  predicate Admissible(spec: ModelSpec, source: ImageSource) {
    && spec.images
    && (source.Artifact? ==> source.reference.complete && source.reference.bytes <= MAX_TOOL_IMAGE_SOURCE_BYTES)
  }

  function Rejection(spec: ModelSpec, source: ImageSource, remaining: nat): Option<Status> {
    if !spec.images then Some(ModelWithoutVision)
    else if source.Artifact? && !source.reference.complete then Some(IncompleteSource)
    else if source.Artifact? && source.reference.bytes > MAX_TOOL_IMAGE_SOURCE_BYTES then Some(ImageLimit)
    else if remaining == 0 then Some(ImageLimit)
    else None
  }

  datatype Selection = Selection(kept: seq<Block>, remaining: nat, notices: seq<Notice>)

  /** Newest block first: what survives of one tool message, and one notice per image that does not. */
  function Select(spec: ModelSpec, bs: seq<Block>, remaining: nat): Selection {
    if bs == [] then Selection([], remaining, [])
    else
      var older, b := bs[..|bs| - 1], bs[|bs| - 1];
      if b.Image? && Rejection(spec, b.source, remaining).Some? then
        var s := Select(spec, older, remaining);
        s.(notices := [Observed(ReferenceId(b.source), Rejection(spec, b.source, remaining).value)] + s.notices)
      else
        var s := Select(spec, older, if b.Image? then remaining - 1 else remaining);
        s.(kept := s.kept + [b])
  }

  function Upto(ns: seq<Notice>, limit: nat): seq<Notice> {
    if |ns| <= limit then ns else ns[..limit]
  }

  function DropReasoning(bs: seq<Block>): seq<Block> {
    if bs == [] then []
    else (if bs[0].Reasoning? then [] else [bs[0]]) + DropReasoning(bs[1..])
  }

  predicate HasImage(bs: seq<Block>) {
    exists b :: b in bs && b.Image?
  }

  predicate HasReasoning(bs: seq<Block>) {
    exists b :: b in bs && b.Reasoning?
  }

  datatype Viewing = Viewing(messages: seq<Message>, remaining: nat)

  /** One message as the model sees it: nothing, or one rewritten message. */
  function ViewMessage(spec: ModelSpec, m: Message, remaining: nat): Viewing {
    if m.role == Custom then Viewing([m.(role := User)], remaining)
    else if m.role == Assistant && !spec.reasoningHistory then
      var content := DropReasoning(m.content);
      Viewing(if content == [] then [] else [m.(content := content)], remaining)
    else if m.role == Tool && HasImage(m.content) then
      var s := Select(spec, StripNotices(m.content), remaining);
      Viewing([m.(content := AddNotices(s.kept, Upto(s.notices, MAX_NOTICES)))], s.remaining)
    else Viewing([m], remaining)
  }

  /** The full rewrite: newest message first, so that the image budget goes to the newest images. */
  function View(spec: ModelSpec, ms: seq<Message>, remaining: nat): Viewing {
    if ms == [] then Viewing([], remaining)
    else
      var last := ViewMessage(spec, ms[|ms| - 1], remaining);
      var older := View(spec, ms[..|ms| - 1], last.remaining);
      Viewing(older.messages + last.messages, older.remaining)
  }

  predicate Rewritten(spec: ModelSpec, m: Message) {
    || m.role == Custom
    || (m.role == Assistant && !spec.reasoningHistory && HasReasoning(m.content))
    || (m.role == Tool && HasImage(m.content))
  }

  /** The guard of the borrowed fast path. */
  predicate Changes(spec: ModelSpec, ms: seq<Message>) {
    exists m :: m in ms && Rewritten(spec, m)
  }

  function FullView(spec: ModelSpec, ms: seq<Message>): seq<Message> {
    View(spec, ms, MAX_TOOL_IMAGES).messages
  }

  function Project(spec: ModelSpec, ms: seq<Message>): seq<Message> {
    if Changes(spec, ms) then FullView(spec, ms) else ms
  }

  lemma SelectStep(spec: ModelSpec, older: seq<Block>, b: Block, remaining: nat)
    ensures
      var rejected := b.Image? && Rejection(spec, b.source, remaining).Some?;
      var rest := Select(spec, older, if b.Image? && !rejected then remaining - 1 else remaining);
      Select(spec, older + [b], remaining) ==
        if rejected then
          Selection(rest.kept, rest.remaining,
                    [Observed(ReferenceId(b.source), Rejection(spec, b.source, remaining).value)] + rest.notices)
        else Selection(rest.kept + [b], rest.remaining, rest.notices)
  {
    assert (older + [b])[..|older|] == older;
  }

  method SelectImages(spec: ModelSpec, content: seq<Block>, budget: nat)
    returns (kept: seq<Block>, remaining: nat, notices: seq<Notice>)
    ensures kept == Select(spec, content, budget).kept
    ensures remaining == Select(spec, content, budget).remaining
    ensures notices == Upto(Select(spec, content, budget).notices, MAX_NOTICES)
  {
    kept, remaining, notices := [], budget, [];
    ghost var s := Select(spec, content, budget);
    ghost var seen: seq<Notice> := [];
    assert content[..|content|] == content;
    for i := |content| downto 0
      invariant notices == Upto(seen, MAX_NOTICES)
      invariant Selected(s, Select(spec, content[..i], remaining), kept, seen)
    {
      var block := content[i];
      assert content[..i + 1] == content[..i] + [block];
      SelectStep(spec, content[..i], block, remaining);
      var status := if block.Image? then Rejection(spec, block.source, remaining) else None;
      if status.Some? {
        var n := Observed(ReferenceId(block.source), status.value);
        if |notices| < MAX_NOTICES {
          notices := notices + [n];
        }
        Assoc(seen, [n], Select(spec, content[..i], remaining).notices);
        seen := seen + [n];
      } else {
        if block.Image? {
          remaining := remaining - 1;
        }
        Assoc(Select(spec, content[..i], remaining).kept, [block], kept);
        kept := [block] + kept;
      }
    }
    assert content[..0] == [];
  }

  /** What is selected altogether, split into what the rest selects and what was collected already. */
  predicate Selected(all: Selection, rest: Selection, kept: seq<Block>, seen: seq<Notice>) {
    all.kept == rest.kept + kept && all.remaining == rest.remaining && all.notices == seen + rest.notices
  }

  /** One step of the reverse pass: the message as shown, unless it is skipped. */
  method ViewOne(spec: ModelSpec, original: Message, budget: nat) returns (seen: seq<Message>, remaining: nat)
    ensures Viewing(seen, remaining) == ViewMessage(spec, original, budget)
  {
    var message := original;
    remaining := budget;
    if message.role == Custom {
      message := message.(role := User);
    }
    if message.role == Assistant && !spec.reasoningHistory {
      message := message.(content := DropReasoning(message.content));
      if message.content == [] {
        return [], remaining;
      }
    }
    if message.role == Tool && HasImage(message.content) {
      var kept, left, notices := SelectImages(spec, StripNotices(message.content), remaining);
      remaining := left;
      message := message.(content := AddNotices(kept, notices));
    }
    seen := [message];
  }

  method ModelMessages(spec: ModelSpec, messages: seq<Message>) returns (view: seq<Message>)
    ensures view == Project(spec, messages)
  {
    if !Changes(spec, messages) {
      return messages;
    }
    var remaining := MAX_TOOL_IMAGES;
    view := [];
    assert messages[..|messages|] == messages;
    for i := |messages| downto 0
      invariant FullView(spec, messages) == View(spec, messages[..i], remaining).messages + view
    {
      assert messages[..i + 1][..i] == messages[..i] && messages[..i + 1][i] == messages[i];
      var seen, left := ViewOne(spec, messages[i], remaining);
      remaining, view := left, seen + view;
    }
    assert messages[..0] == [];
  }

  // ----- which images survive -----

  function Images(bs: seq<Block>): seq<ImageSource> {
    if bs == [] then [] else (if bs[0].Image? then [bs[0].source] else []) + Images(bs[1..])
  }

  /** The images of tool messages in transcript order. */
  function ToolImages(ms: seq<Message>): seq<ImageSource> {
    if ms == [] then [] else (if ms[0].role == Tool then Images(ms[0].content) else []) + ToolImages(ms[1..])
  }

  function Eligible(spec: ModelSpec, sources: seq<ImageSource>): seq<ImageSource> {
    if sources == [] then []
    else (if Admissible(spec, sources[0]) then [sources[0]] else []) + Eligible(spec, sources[1..])
  }

  function Newest<T>(s: seq<T>, n: nat): (r: seq<T>)
    ensures |r| == Min(n, |s|)
  {
    s[SatSub(|s|, n)..]
  }

  lemma NewestConcat<T>(a: seq<T>, b: seq<T>, n: nat)
    ensures Newest(a + b, n) == Newest(a, n - |Newest(b, n)|) + Newest(b, n)
  {}

  lemma {:induction false} ImagesConcat(a: seq<Block>, b: seq<Block>)
    ensures Images(a + b) == Images(a) + Images(b)
  {
    if a == [] {
      assert a + b == b;
    } else {
      assert (a + b)[0] == a[0] && (a + b)[1..] == a[1..] + b;
      ImagesConcat(a[1..], b);
    }
  }

  lemma {:induction false} ToolImagesConcat(a: seq<Message>, b: seq<Message>)
    ensures ToolImages(a + b) == ToolImages(a) + ToolImages(b)
  {
    if a == [] {
      assert a + b == b;
    } else {
      assert (a + b)[0] == a[0] && (a + b)[1..] == a[1..] + b;
      ToolImagesConcat(a[1..], b);
    }
  }

  lemma {:induction false} EligibleConcat(spec: ModelSpec, a: seq<ImageSource>, b: seq<ImageSource>)
    ensures Eligible(spec, a + b) == Eligible(spec, a) + Eligible(spec, b)
  {
    if a == [] {
      assert a + b == b;
    } else {
      assert (a + b)[0] == a[0] && (a + b)[1..] == a[1..] + b;
      EligibleConcat(spec, a[1..], b);
    }
  }

  lemma {:induction false} EligibleAll(spec: ModelSpec, s: seq<ImageSource>)
    ensures forall x :: x in Eligible(spec, s) ==> Admissible(spec, x)
    ensures (forall x :: x in s ==> Admissible(spec, x)) ==> Eligible(spec, s) == s
  {
    if s != [] {
      EligibleAll(spec, s[1..]);
    }
  }

  lemma RejectionIff(spec: ModelSpec, source: ImageSource, budget: nat)
    ensures Rejection(spec, source, budget).Some? <==> !Admissible(spec, source) || budget == 0
  {}

  lemma NewestPush<T>(a: seq<T>, x: T, n: nat)
    ensures Newest(a + [x], n) == if n == 0 then [] else Newest(a, n - 1) + [x]
  {}

  lemma ImagesPush(bs: seq<Block>, b: Block)
    ensures Images(bs + [b]) == if b.Image? then Images(bs) + [b.source] else Images(bs)
  {
    ImagesConcat(bs, [b]);
    assert [b][1..] == [];
  }

  lemma EligiblePush(spec: ModelSpec, sources: seq<ImageSource>, x: ImageSource)
    ensures Eligible(spec, sources + [x]) ==
      if Admissible(spec, x) then Eligible(spec, sources) + [x] else Eligible(spec, sources)
  {
    EligibleConcat(spec, sources, [x]);
    assert [x][1..] == [];
  }

  /** The eligible images of a message with one more block. */
  lemma EligibleNext(spec: ModelSpec, older: seq<Block>, b: Block, budget: nat)
    ensures
      var past, now := Eligible(spec, Images(older)), Eligible(spec, Images(older + [b]));
      if b.Image? && Rejection(spec, b.source, budget).None? then
        budget > 0 && Newest(now, budget) == Newest(past, budget - 1) + [b.source]
      else Newest(now, budget) == Newest(past, budget)
  {
    ImagesPush(older, b);
    if b.Image? {
      RejectionIff(spec, b.source, budget);
      EligiblePush(spec, Images(older), b.source);
      NewestPush(Eligible(spec, Images(older)), b.source, budget);
    }
  }

  /** What a selection keeps is the newest eligible images the budget allows. */
  predicate KeepsNewest(spec: ModelSpec, bs: seq<Block>, budget: nat, s: Selection) {
    var newest := Newest(Eligible(spec, Images(bs)), budget);
    Images(s.kept) == newest && s.remaining == budget - |newest|
  }

  lemma KeepBlock(spec: ModelSpec, older: seq<Block>, b: Block, budget: nat, s: Selection)
    requires b.Image? ==> Rejection(spec, b.source, budget).None? && budget > 0
    requires KeepsNewest(spec, older, if b.Image? then budget - 1 else budget, s)
    ensures KeepsNewest(spec, older + [b], budget, s.(kept := s.kept + [b]))
  {
    EligibleNext(spec, older, b, budget);
    ImagesPush(s.kept, b);
  }

  lemma RejectBlock(spec: ModelSpec, older: seq<Block>, b: Block, budget: nat, s: Selection)
    requires b.Image? && Rejection(spec, b.source, budget).Some? && KeepsNewest(spec, older, budget, s)
    ensures KeepsNewest(spec, older + [b], budget, s)
  {
    EligibleNext(spec, older, b, budget);
  }

  lemma {:induction false} SelectKeepsNewest(spec: ModelSpec, bs: seq<Block>, budget: nat)
    ensures KeepsNewest(spec, bs, budget, Select(spec, bs, budget))
    decreases bs
  {
    if bs != [] {
      var older, b := bs[..|bs| - 1], bs[|bs| - 1];
      assert bs == older + [b];
      SelectStep(spec, older, b, budget);
      if b.Image? && Rejection(spec, b.source, budget).Some? {
        SelectKeepsNewest(spec, older, budget);
        RejectBlock(spec, older, b, budget, Select(spec, older, budget));
      } else {
        if b.Image? {
          RejectionIff(spec, b.source, budget);
        }
        var next := if b.Image? then budget - 1 else budget;
        SelectKeepsNewest(spec, older, next);
        KeepBlock(spec, older, b, budget, Select(spec, older, next));
      }
    }
  }

  lemma {:induction false} AnnotationsKeepImages(bs: seq<Block>, ns: seq<Notice>)
    ensures Images(AddNotices(bs, ns)) == Images(bs)
    decreases ns
  {
    if ns != [] {
      OneAnnotationKeepsImages(bs, ns[0]);
      AnnotationsKeepImages(AddNotice(bs, ns[0]), ns[1..]);
    }
  }

  lemma {:induction false} OneAnnotationKeepsImages(bs: seq<Block>, n: Notice)
    ensures Images(AddNotice(bs, n)) == Images(bs)
  {
    if bs != [] && !bs[0].ToolResult? {
      OneAnnotationKeepsImages(bs[1..], n);
    }
  }

  lemma {:induction false} StrippingKeepsImages(bs: seq<Block>)
    ensures Images(StripNotices(bs)) == Images(bs)
  {
    if bs != [] {
      StrippingKeepsImages(bs[1..]);
    }
  }

  lemma {:induction false} NoImages(bs: seq<Block>)
    ensures HasImage(bs) <==> Images(bs) != []
  {
    if bs != [] {
      NoImages(bs[1..]);
      assert forall b :: b in bs <==> b == bs[0] || b in bs[1..];
    }
  }

  lemma OneMessageImages(m: Message)
    ensures ToolImages([m]) == if m.role == Tool then Images(m.content) else []
  {
    assert [m][1..] == [];
  }

  lemma ViewMessageImages(spec: ModelSpec, m: Message, budget: nat)
    ensures
      var eligible := Eligible(spec, ToolImages([m]));
      && ToolImages(ViewMessage(spec, m, budget).messages) == Newest(eligible, budget)
      && ViewMessage(spec, m, budget).remaining == budget - |Newest(eligible, budget)|
  {
    OneMessageImages(m);
    NoImages(m.content);
    var seen := ViewMessage(spec, m, budget).messages;
    if seen != [] {
      OneMessageImages(seen[0]);
      assert seen == [seen[0]];
    }
    if m.role == Tool && HasImage(m.content) {
      var s := Select(spec, StripNotices(m.content), budget);
      StrippingKeepsImages(m.content);
      SelectKeepsNewest(spec, StripNotices(m.content), budget);
      AnnotationsKeepImages(s.kept, Upto(s.notices, MAX_NOTICES));
    }
  }

  /** The full rewrite shows exactly the newest eligible tool images that its budget allows, in order. */
  lemma {:induction false} ViewKeepsNewest(spec: ModelSpec, ms: seq<Message>, budget: nat)
    ensures
      var eligible := Eligible(spec, ToolImages(ms));
      && ToolImages(View(spec, ms, budget).messages) == Newest(eligible, budget)
      && View(spec, ms, budget).remaining == budget - |Newest(eligible, budget)|
  {
    if ms != [] {
      var older, m := ms[..|ms| - 1], ms[|ms| - 1];
      var last := ViewMessage(spec, m, budget);
      assert ms == older + [m];
      ToolImagesConcat(older, [m]);
      EligibleConcat(spec, ToolImages(older), ToolImages([m]));
      NewestConcat(Eligible(spec, ToolImages(older)), Eligible(spec, ToolImages([m])), budget);
      ViewMessageImages(spec, m, budget);
      ViewKeepsNewest(spec, older, last.remaining);
      ToolImagesConcat(View(spec, older, last.remaining).messages, last.messages);
    }
  }

  lemma {:induction false} UnchangedHasNoToolImages(spec: ModelSpec, ms: seq<Message>)
    requires !Changes(spec, ms)
    ensures ToolImages(ms) == []
  {
    if ms != [] {
      assert !Rewritten(spec, ms[0]);
      assert forall m :: m in ms[1..] ==> m in ms;
      NoImages(ms[0].content);
      UnchangedHasNoToolImages(spec, ms[1..]);
    }
  }

  lemma {:induction false} NothingAdmissible(spec: ModelSpec, s: seq<ImageSource>)
    requires !spec.images
    ensures Eligible(spec, s) == []
  {
    if s != [] {
      NothingAdmissible(spec, s[1..]);
    }
  }

  /** The view shows the last min(4, k) of the k eligible tool images, in transcript order. */
  lemma NewestImagesShown(spec: ModelSpec, ms: seq<Message>)
    ensures ToolImages(Project(spec, ms)) == Newest(Eligible(spec, ToolImages(ms)), MAX_TOOL_IMAGES)
    ensures !spec.images ==> ToolImages(Project(spec, ms)) == []
  {
    ViewKeepsNewest(spec, ms, MAX_TOOL_IMAGES);
    EligibleAll(spec, ToolImages(ms));
    if !Changes(spec, ms) {
      UnchangedHasNoToolImages(spec, ms);
    }
    if !spec.images {
      NothingAdmissible(spec, ToolImages(ms));
    }
  }

  /** Projecting a view again shows the same images. */
  lemma ImageSelectionStable(spec: ModelSpec, ms: seq<Message>)
    ensures ToolImages(Project(spec, Project(spec, ms))) == ToolImages(Project(spec, ms))
  {
    var shown := ToolImages(Project(spec, ms));
    NewestImagesShown(spec, ms);
    NewestImagesShown(spec, Project(spec, ms));
    EligibleAll(spec, ToolImages(ms));
    EligibleAll(spec, shown);
  }

  // ----- calls and results -----

  lemma {:induction false} MarksConcat(a: seq<Block>, b: seq<Block>)
    ensures Marks(a + b) == Marks(a) + Marks(b)
  {
    if a == [] {
      assert a + b == b;
    } else {
      assert (a + b)[0] == a[0] && (a + b)[1..] == a[1..] + b;
      MarksConcat(a[1..], b);
      Assoc(MarkOf(a[0]), Marks(a[1..]), Marks(b));
    }
  }

  lemma {:induction false} SelectKeepsMarks(spec: ModelSpec, bs: seq<Block>, budget: nat)
    ensures Marks(Select(spec, bs, budget).kept) == Marks(bs)
  {
    if bs != [] {
      var older, b := bs[..|bs| - 1], bs[|bs| - 1];
      assert bs == older + [b];
      MarksConcat(older, [b]);
      if b.Image? && Rejection(spec, b.source, budget).Some? {
        SelectKeepsMarks(spec, older, budget);
      } else {
        var next := if b.Image? then budget - 1 else budget;
        SelectKeepsMarks(spec, older, next);
        MarksConcat(Select(spec, older, next).kept, [b]);
      }
    }
  }

  lemma {:induction false} RewritesKeepMarks(bs: seq<Block>, ns: seq<Notice>)
    ensures Marks(StripNotices(bs)) == Marks(DropReasoning(bs)) == Marks(AddNotices(bs, ns)) == Marks(bs)
    decreases |ns|, |bs|
  {
    if ns != [] {
      OneAnnotationKeepsMarks(bs, ns[0]);
      RewritesKeepMarks(AddNotice(bs, ns[0]), ns[1..]);
    }
    if bs != [] {
      RewritesKeepMarks(bs[1..], []);
      var head := if bs[0].Reasoning? then [] else [bs[0]];
      MarksConcat(head, DropReasoning(bs[1..]));
      assert bs == [bs[0]] + bs[1..];
      MarksConcat([bs[0]], bs[1..]);
    }
  }

  lemma {:induction false} OneAnnotationKeepsMarks(bs: seq<Block>, n: Notice)
    ensures Marks(AddNotice(bs, n)) == Marks(bs)
  {
    if bs != [] && !bs[0].ToolResult? {
      OneAnnotationKeepsMarks(bs[1..], n);
    }
  }

  /** A shown message carries the marks of its original; a dropped one had none. */
  lemma ViewMessageMarks(spec: ModelSpec, m: Message, budget: nat)
    ensures
      var seen := ViewMessage(spec, m, budget).messages;
      && |seen| <= 1
      && (seen == [] ==> m.role == Assistant && Marks(m.content) == [])
      && (seen != [] ==>
           && Marks(seen[0].content) == Marks(m.content)
           && seen[0].role == if m.role == Custom then User else m.role)
  {
    RewritesKeepMarks(m.content, []);
    if m.role == Tool && HasImage(m.content) {
      var s := Select(spec, StripNotices(m.content), budget);
      SelectKeepsMarks(spec, StripNotices(m.content), budget);
      RewritesKeepMarks(s.kept, Upto(s.notices, MAX_NOTICES));
    }
  }

  function Reading(ms: seq<Message>): seq<Mark> {
    if ms == [] then [] else Marks(ms[0].content) + Reading(ms[1..])
  }

  lemma {:induction false} ReadingConcat(a: seq<Message>, b: seq<Message>)
    ensures Reading(a + b) == Reading(a) + Reading(b)
  {
    if a == [] {
      assert a + b == b;
    } else {
      assert (a + b)[0] == a[0] && (a + b)[1..] == a[1..] + b;
      ReadingConcat(a[1..], b);
    }
  }

  lemma {:induction false} ViewKeepsReading(spec: ModelSpec, ms: seq<Message>, budget: nat)
    ensures Reading(View(spec, ms, budget).messages) == Reading(ms)
  {
    if ms != [] {
      var older, m := ms[..|ms| - 1], ms[|ms| - 1];
      var last := ViewMessage(spec, m, budget);
      assert ms == older + [m];
      ReadingConcat(older, [m]);
      ViewMessageMarks(spec, m, budget);
      ViewKeepsReading(spec, older, last.remaining);
      ReadingConcat(View(spec, older, last.remaining).messages, last.messages);
      assert [m][1..] == [];
      if last.messages != [] {
        assert last.messages[1..] == [];
      }
    }
  }

  /** Projection changes no call id, no result id and not their order. */
  lemma ProjectionKeepsReading(spec: ModelSpec, ms: seq<Message>)
    ensures Reading(Project(spec, ms)) == Reading(ms)
  {
    ViewKeepsReading(spec, ms, MAX_TOOL_IMAGES);
  }

  lemma {:induction false} ViewConcat(spec: ModelSpec, a: seq<Message>, b: seq<Message>, budget: nat)
    ensures
      var newer := View(spec, b, budget);
      var older := View(spec, a, newer.remaining);
      View(spec, a + b, budget) == Viewing(older.messages + newer.messages, older.remaining)
    decreases |b|
  {
    if b == [] {
      assert a + b == a;
    } else {
      var c, m := b[..|b| - 1], b[|b| - 1];
      assert (a + b)[..|a + b| - 1] == a + c && (a + b)[|a + b| - 1] == m;
      var last := ViewMessage(spec, m, budget);
      ViewConcat(spec, a, c, last.remaining);
      var mid := View(spec, c, last.remaining);
      assert View(spec, a, mid.remaining).messages + mid.messages + last.messages
        == View(spec, a, mid.remaining).messages + (mid.messages + last.messages);
    }
  }

  lemma ViewSingle(spec: ModelSpec, m: Message, budget: nat)
    ensures View(spec, [m], budget) == ViewMessage(spec, m, budget)
  {
    assert [m][..0] == [];
  }

  /** A paired transcript projects to a paired view, whatever the image budget. */
  lemma {:induction false} ViewKeepsOpen(spec: ModelSpec, ms: seq<Message>, budget: nat, pending: set<string>)
    requires Open(pending, ms).Some?
    ensures Open(pending, View(spec, ms, budget).messages) == Open(pending, ms)
  {
    if ms != [] {
      var m, rest := ms[0], ms[1..];
      var newer := View(spec, rest, budget);
      var first := ViewMessage(spec, m, newer.remaining);
      assert ms == [m] + rest;
      ViewConcat(spec, [m], rest, budget);
      ViewSingle(spec, m, newer.remaining);
      ViewMessageMarks(spec, m, newer.remaining);
      var p := TrackMessage(pending, m).value;
      ViewKeepsOpen(spec, rest, budget, p);
      if first.messages == [] {
        assert first.messages + newer.messages == newer.messages;
      } else {
        TrackCustom(pending, m, first.messages[0]);
        assert first.messages == [first.messages[0]];
        assert (first.messages + newer.messages)[1..] == newer.messages;
      }
    }
  }

  lemma TrackCustom(pending: set<string>, m: Message, seen: Message)
    requires Marks(seen.content) == Marks(m.content)
    requires seen.role == if m.role == Custom then User else m.role
    ensures TrackMessage(pending, seen) == TrackMessage(pending, m)
  {
    if m.role == Custom && Marks(m.content) != [] {
      assert Track(pending, User, Marks(m.content)).None?;
    }
  }

  // ----- the borrowed fast path -----

  predicate NoEmptyAssistant(ms: seq<Message>) {
    forall m :: m in ms && m.role == Assistant ==> m.content != []
  }

  lemma {:induction false} WithoutReasoning(bs: seq<Block>)
    requires !HasReasoning(bs)
    ensures DropReasoning(bs) == bs
  {
    if bs != [] {
      assert bs[0] in bs;
      assert forall b :: b in bs[1..] ==> b in bs;
      WithoutReasoning(bs[1..]);
    }
  }

  lemma {:induction false} UnchangedView(spec: ModelSpec, ms: seq<Message>, budget: nat)
    requires !Changes(spec, ms)
    ensures |View(spec, ms, budget).messages| <= |ms|
    ensures (View(spec, ms, budget).messages == ms) <==> spec.reasoningHistory || NoEmptyAssistant(ms)
    ensures View(spec, ms, budget).messages != ms ==> |View(spec, ms, budget).messages| < |ms|
  {
    if ms != [] {
      var older, m := ms[..|ms| - 1], ms[|ms| - 1];
      assert forall x :: x in ms <==> x in older || x == m;
      assert ms == older + [m];
      assert !Rewritten(spec, m);
      var last := ViewMessage(spec, m, budget);
      if m.role == Assistant && !spec.reasoningHistory {
        WithoutReasoning(m.content);
      }
      UnchangedView(spec, older, last.remaining);
    }
  }

  /**
   The borrowed fast path agrees with the full rewrite exactly when reasoning history is shown
   or no assistant message is empty: the rewrite would drop an empty assistant message.
   */
  lemma FastPathIff(spec: ModelSpec, ms: seq<Message>)
    requires !Changes(spec, ms)
    ensures Project(spec, ms) == FullView(spec, ms) <==> spec.reasoningHistory || NoEmptyAssistant(ms)
  {
    UnchangedView(spec, ms, MAX_TOOL_IMAGES);
  }

  /** One empty assistant message on which the fast path and the full rewrite differ. */
  lemma FastPathDiffers()
    ensures
      var spec := ModelSpec("p", true, true, false, None, None);
      var ms := [Message(Assistant, [])];
      !Changes(spec, ms) && Project(spec, ms) == ms && FullView(spec, ms) == []
  {
    var spec := ModelSpec("p", true, true, false, None, None);
    ViewSingle(spec, Message(Assistant, []), MAX_TOOL_IMAGES);
  }

  // ----- notices are harmless -----

  lemma {:induction false} OneAnnotationHarmless(spec: ModelSpec, role: Role, bs: seq<Block>, n: Notice)
    ensures Unobjectionable(spec, role, AddNotice(bs, n)) <==> Unobjectionable(spec, role, bs)
    ensures ImageCount(AddNotice(bs, n)) == ImageCount(bs) && ResultCount(AddNotice(bs, n)) == ResultCount(bs)
    ensures |AddNotice(bs, n)| == |bs|
  {
    if bs != [] {
      var after := AddNotice(bs, n);
      UnobjectionableStep(spec, role, bs);
      UnobjectionableStep(spec, role, after);
      if !bs[0].ToolResult? {
        OneAnnotationHarmless(spec, role, bs[1..], n);
        assert after[1..] == AddNotice(bs[1..], n);
      } else {
        assert after[1..] == bs[1..];
      }
    }
  }

  lemma {:induction false} AnnotationsHarmless(spec: ModelSpec, role: Role, bs: seq<Block>, ns: seq<Notice>)
    ensures Unobjectionable(spec, role, AddNotices(bs, ns)) <==> Unobjectionable(spec, role, bs)
    ensures ImageCount(AddNotices(bs, ns)) == ImageCount(bs) && ResultCount(AddNotices(bs, ns)) == ResultCount(bs)
    ensures |AddNotices(bs, ns)| == |bs|
    decreases ns
  {
    if ns != [] {
      OneAnnotationHarmless(spec, role, bs, ns[0]);
      AnnotationsHarmless(spec, role, AddNotice(bs, ns[0]), ns[1..]);
    }
  }
}
