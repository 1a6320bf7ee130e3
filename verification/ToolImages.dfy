/** Resolving the tool images of a projected view into bounded inline previews. */
module ToolImages {
  import opened Wrappers
  import opened Transcript
  import opened ModelView

  const MAX_TOOL_IMAGE_BYTES: nat := 256 * 1024

  datatype ToolImageError = UnavailableError | InvalidError | LimitError | TimeoutError

  function Code(e: ToolImageError): Status {
    match e
    case UnavailableError => Unavailable
    case InvalidError => InvalidImage
    case LimitError => ImageLimit
    case TimeoutError => ImageTimeout
  }

  // ----- the inline envelope -----

  function TrimPadding(data: string): string {
    if data != [] && data[|data| - 1] == '=' then TrimPadding(data[..|data| - 1]) else data
  }

  predicate Base64Char(c: char) {
    'a' <= c <= 'z' || 'A' <= c <= 'Z' || '0' <= c <= '9' || c == '+' || c == '/'
  }

  predicate Displayable(kind: MediaKind) {
    kind == Jpeg || kind == Png || kind == Gif || kind == Webp
  }

  function Padding(data: string): (r: nat)
    ensures r <= |data|
  {
    TrimmedShorter(data);
    |data| - |TrimPadding(data)|
  }

  lemma TrimmedShorter(data: string)
    ensures |TrimPadding(data)| <= |data|
  {}

  /** Bytes that a base64 text stands for. */
  function DecodedBytes(data: string): nat {
    SatSub(|data| / 4 * 3, Padding(data))
  }

  /** The constructor of a resolved preview; the declared type is replaced by its normal form. */
  function NewPreview(media: Media, data: string): Result<ImageSource, ToolImageError> {
    if media.kind == NotImage then Err(InvalidError)
    else if !Displayable(media.kind) || data == [] || |data| % 4 != 0 || Padding(data) > 2
      || |data| > (MAX_TOOL_IMAGE_BYTES + 2) / 3 * 4
      || |data| / 4 * 3 - Padding(data) > MAX_TOOL_IMAGE_BYTES
      || exists c :: c in TrimPadding(data) && !Base64Char(c)
    then Err(LimitError)
    else Ok(Base64(Media(media.kind, 0), data))
  }

  /** An inline preview within the envelope. */
  predicate Inline(source: ImageSource) {
    source.Base64? && Displayable(source.media.kind) && DecodedBytes(source.data) <= MAX_TOOL_IMAGE_BYTES
  }

  lemma PreviewsAreInline(media: Media, data: string)
    ensures NewPreview(media, data).Ok? ==> Inline(NewPreview(media, data).value)
  {}

  // ----- the outside world -----

  /** A resolver answers with the arguments of a preview, or fails. */
  datatype Answer = Preview(media: Media, data: string) | Failed(error: ToolImageError)

  /** Whatever the resolver answers for each image, and whenever cancellation strikes. */
  datatype World = World(
    resolver: Option<(nat, nat) -> Answer>, cancelled: (nat, nat) -> bool, cancelledAtEnd: bool)

  function Resolve(
    world: World, message: nat, image: nat, source: ImageSource): (r: Result<ImageSource, ToolImageError>)
    ensures r.Ok? ==> Inline(r.value)
  {
    match source
    case Artifact(_) =>
      if world.resolver.None? then Err(UnavailableError)
      else (match world.resolver.value(message, image)
            case Preview(media, data) => PreviewsAreInline(media, data); NewPreview(media, data)
            case Failed(e) => Err(e))
    case Base64(media, data) => PreviewsAreInline(media, data); NewPreview(media, data)
    case Url(_) => Err(InvalidError)
  }

  datatype Settled = Settled(kept: seq<Block>, observed: seq<Notice>)

  /** Images replaced by their previews or dropped, from image number `image` on, and what was observed. */
  function Settle(world: World, message: nat, image: nat, bs: seq<Block>): Settled
    decreases bs
  {
    if bs == [] then Settled([], [])
    else if !bs[0].Image? then
      var rest := Settle(world, message, image, bs[1..]);
      rest.(kept := [bs[0]] + rest.kept)
    else
      var rest := Settle(world, message, image + 1, bs[1..]);
      match Resolve(world, message, image, bs[0].source)
      case Ok(preview) =>
        Settled([Image(preview)] + rest.kept, [Observed(ReferenceId(bs[0].source), NormalizedPreview)] + rest.observed)
      case Err(e) => Settled(rest.kept, [Observed(ReferenceId(bs[0].source), Code(e))] + rest.observed)
  }

  function MaterializeMessage(world: World, index: nat, m: Message): Message {
    if m.role != Tool then m
    else
      var s := Settle(world, index, 0, m.content);
      m.(content := AddNotices(s.kept, s.observed))
  }

  /** The view once every tool image from message number `index` on is settled. */
  function Materialized(world: World, index: nat, ms: seq<Message>): (r: seq<Message>)
    ensures |r| == |ms|
    decreases ms
  {
    if ms == [] then [] else [MaterializeMessage(world, index, ms[0])] + Materialized(world, index + 1, ms[1..])
  }

  /** Whether cancellation is seen before one of the first `images` images of a message. */
  predicate Struck(world: World, message: nat, images: nat) {
    exists i: nat :: i < images && world.cancelled(message, i)
  }

  predicate Interrupted(world: World, ms: seq<Message>) {
    || world.cancelledAtEnd
    || exists i :: 0 <= i < |ms| && ms[i].role == Tool && Struck(world, i, ImageCount(ms[i].content))
  }

  lemma MaterializedAt(world: World, index: nat, ms: seq<Message>, k: nat)
    requires k < |ms|
    ensures Materialized(world, index, ms)[k] == MaterializeMessage(world, index + k, ms[k])
    decreases ms
  {
    if k > 0 {
      MaterializedAt(world, index + 1, ms[1..], k - 1);
    }
  }

  method MaterializeBlocks(world: World, index: nat, content: seq<Block>) returns (ok: bool, settled: seq<Block>)
    ensures ok <==> !Struck(world, index, ImageCount(content))
    ensures ok ==>
      settled == AddNotices(Settle(world, index, 0, content).kept, Settle(world, index, 0, content).observed)
  {
    var kept: seq<Block> := [];
    var observations: seq<Notice> := [];
    var image := 0;
    ghost var all := Settle(world, index, 0, content);
    assert content[0..] == content;
    for i := 0 to |content|
      invariant ImageCount(content) == image + ImageCount(content[i..])
      invariant !Struck(world, index, image)
      invariant all.kept == kept + Settle(world, index, image, content[i..]).kept
      invariant all.observed == observations + Settle(world, index, image, content[i..]).observed
    {
      var block := content[i];
      assert content[i..][1..] == content[i + 1..];
      ghost var rest := Settle(world, index, if block.Image? then image + 1 else image, content[i + 1..]);
      if !block.Image? {
        Assoc(kept, [block], rest.kept);
        kept := kept + [block];
        continue;
      }
      if world.cancelled(index, image) {
        return false, [];
      }
      var result := Resolve(world, index, image, block.source);
      var note := Observed(ReferenceId(block.source), if result.Ok? then NormalizedPreview else Code(result.error));
      if result.Ok? {
        Assoc(kept, [Image(result.value)], rest.kept);
        kept := kept + [Image(result.value)];
      }
      Assoc(observations, [note], rest.observed);
      observations := observations + [note];
      image := image + 1;
    }
    assert content[|content|..] == [];
    assert kept == all.kept && observations == all.observed;
    ok := true;
    settled := AddNotices(kept, observations);
  }

  /** The in-place pass over a projected view. */
  method Materialize(messages: array<Message>, world: World) returns (ok: bool)
    modifies messages
    ensures ok <==> !Interrupted(world, old(messages[..]))
    ensures ok ==> messages[..] == Materialized(world, 0, old(messages[..]))
  {
    ghost var view := messages[..];
    for i := 0 to messages.Length
      invariant forall k :: 0 <= k < i ==> messages[k] == MaterializeMessage(world, k, view[k])
      invariant forall k :: i <= k < messages.Length ==> messages[k] == view[k]
      invariant forall k :: 0 <= k < i && view[k].role == Tool ==> !Struck(world, k, ImageCount(view[k].content))
    {
      if messages[i].role == Tool {
        var done, content := MaterializeBlocks(world, i, messages[i].content);
        if !done {
          return false;
        }
        messages[i] := messages[i].(content := content);
      }
    }
    forall k | 0 <= k < |view| ensures messages[k] == Materialized(world, 0, view)[k] {
      MaterializedAt(world, 0, view, k);
    }
    ok := !world.cancelledAtEnd;
  }

  // ----- which images survive -----

  /** The previews of the images that resolved, in order. */
  function Previews(world: World, message: nat, image: nat, sources: seq<ImageSource>): seq<ImageSource>
    decreases sources
  {
    if sources == [] then []
    else
      var r := Resolve(world, message, image, sources[0]);
      (if r.Ok? then [r.value] else []) + Previews(world, message, image + 1, sources[1..])
  }

  function AllPreviews(world: World, index: nat, ms: seq<Message>): seq<ImageSource>
    decreases ms
  {
    if ms == [] then []
    else
      var here := if ms[0].role == Tool then Previews(world, index, 0, Images(ms[0].content)) else [];
      here + AllPreviews(world, index + 1, ms[1..])
  }

  lemma {:induction false} SettleShowsPreviews(world: World, message: nat, image: nat, bs: seq<Block>)
    ensures Images(Settle(world, message, image, bs).kept) == Previews(world, message, image, Images(bs))
    decreases bs
  {
    if bs != [] {
      var rest := Settle(world, message, if bs[0].Image? then image + 1 else image, bs[1..]);
      SettleShowsPreviews(world, message, if bs[0].Image? then image + 1 else image, bs[1..]);
      if bs[0].Image? {
        var r := Resolve(world, message, image, bs[0].source);
        assert Images(bs)[1..] == Images(bs[1..]);
        if r.Ok? {
          assert ([Image(r.value)] + rest.kept)[1..] == rest.kept;
        }
      } else {
        assert ([bs[0]] + rest.kept)[1..] == rest.kept;
        assert Images(bs) == Images(bs[1..]);
      }
    }
  }

  /** The tool images of a materialized view are exactly the previews of those that resolved, in order. */
  lemma {:induction false} SurvivorsResolved(world: World, index: nat, ms: seq<Message>)
    ensures ToolImages(Materialized(world, index, ms)) == AllPreviews(world, index, ms)
    decreases ms
  {
    if ms != [] {
      SurvivorsResolved(world, index + 1, ms[1..]);
      var s := Settle(world, index, 0, ms[0].content);
      SettleShowsPreviews(world, index, 0, ms[0].content);
      AnnotationsKeepImages(s.kept, s.observed);
    }
  }

  lemma {:induction false} PreviewsInline(world: World, message: nat, image: nat, sources: seq<ImageSource>)
    ensures |Previews(world, message, image, sources)| <= |sources|
    ensures forall p :: p in Previews(world, message, image, sources) ==> Inline(p)
    decreases sources
  {
    if sources != [] {
      PreviewsInline(world, message, image + 1, sources[1..]);
    }
  }

  lemma {:induction false} AllPreviewsInline(world: World, index: nat, ms: seq<Message>)
    ensures |AllPreviews(world, index, ms)| <= |ToolImages(ms)|
    ensures forall p :: p in AllPreviews(world, index, ms) ==> Inline(p)
    decreases ms
  {
    if ms != [] {
      AllPreviewsInline(world, index + 1, ms[1..]);
      PreviewsInline(world, index, 0, Images(ms[0].content));
    }
  }

  function TotalBytes(sources: seq<ImageSource>): nat {
    if sources == [] then 0
    else (if sources[0].Base64? then DecodedBytes(sources[0].data) else 0) + TotalBytes(sources[1..])
  }

  lemma {:induction false} InlineTotal(sources: seq<ImageSource>)
    requires forall p :: p in sources ==> Inline(p)
    ensures TotalBytes(sources) <= |sources| * MAX_TOOL_IMAGE_BYTES
  {
    if sources != [] {
      assert sources[0] in sources && forall p :: p in sources[1..] ==> p in sources;
      InlineTotal(sources[1..]);
    }
  }

  /** Whatever the resolver answers, a materialized projection carries at most one MiB of inline tool images. */
  lemma DecodedBytesBounded(spec: ModelSpec, world: World, ms: seq<Message>)
    ensures
      var shown := ToolImages(Materialized(world, 0, Project(spec, ms)));
      && (forall p :: p in shown ==> Inline(p))
      && TotalBytes(shown) <= 1024 * 1024
  {
    NewestImagesShown(spec, ms);
    MaterializedBytes(world, Project(spec, ms));
  }

  lemma MaterializedBytes(world: World, view: seq<Message>)
    ensures
      var shown := ToolImages(Materialized(world, 0, view));
      && (forall p :: p in shown ==> Inline(p))
      && TotalBytes(shown) <= |ToolImages(view)| * MAX_TOOL_IMAGE_BYTES
  {
    SurvivorsResolved(world, 0, view);
    AllPreviewsInline(world, 0, view);
    InlineTotal(AllPreviews(world, 0, view));
  }

  // ----- the view stays valid -----

  /** `kept` is `bs` with some images replaced and some dropped, still fit for a tool message. */
  predicate Reduced(spec: ModelSpec, bs: seq<Block>, kept: seq<Block>) {
    && Unobjectionable(spec, Tool, kept)
    && ImageCount(kept) <= ImageCount(bs)
    && ResultCount(kept) == ResultCount(bs)
    && Marks(kept) == Marks(bs)
  }

  lemma ReducedCons(spec: ModelSpec, b: Block, bs: seq<Block>, kept: seq<Block>, now: seq<Block>)
    requires Reduced(spec, bs, kept)
    requires BlockFault(spec, Tool, b).None?
    requires now == [b] || (b.Image? && (now == [] || exists p :: now == [Image(p)] && Inline(p)))
    ensures Reduced(spec, [b] + bs, now + kept)
  {
    assert ([b] + bs)[1..] == bs;
    if now != [] {
      assert (now + kept)[1..] == kept;
      assert forall x :: x in now + kept <==> x == now[0] || x in kept;
    } else {
      assert now + kept == kept;
    }
  }

  lemma {:induction false} SettleShape(spec: ModelSpec, world: World, message: nat, image: nat, bs: seq<Block>)
    requires Unobjectionable(spec, Tool, bs)
    ensures Reduced(spec, bs, Settle(world, message, image, bs).kept)
    ensures ImageCount(bs) == 0 ==> Settle(world, message, image, bs) == Settled(bs, [])
    decreases bs
  {
    if bs != [] {
      var b := bs[0];
      assert b in bs && forall x :: x in bs[1..] ==> x in bs;
      var next := if b.Image? then image + 1 else image;
      SettleShape(spec, world, message, next, bs[1..]);
      var r := if b.Image? then Resolve(world, message, image, b.source) else Err(InvalidError);
      var now := if !b.Image? then [b] else if r.Ok? then [Image(r.value)] else [];
      ReducedCons(spec, b, bs[1..], Settle(world, message, next, bs[1..]).kept, now);
      assert [b] + bs[1..] == bs;
    }
  }

  lemma MaterializeMessageValid(spec: ModelSpec, world: World, index: nat, m: Message, pending: set<string>)
    requires LocallyValid(spec, m)
    ensures LocallyValid(spec, MaterializeMessage(world, index, m))
    ensures TrackMessage(pending, MaterializeMessage(world, index, m)) == TrackMessage(pending, m)
  {
    if m.role == Tool {
      var s := Settle(world, index, 0, m.content);
      SettleShape(spec, world, index, 0, m.content);
      AnnotationsHarmless(spec, Tool, s.kept, s.observed);
      RewritesKeepMarks(s.kept, s.observed);
      CountsBound(s.kept);
    }
  }

  lemma {:induction false} MaterializedValid(
    spec: ModelSpec, world: World, index: nat, ms: seq<Message>, pending: set<string>)
    requires AllLocallyValid(spec, ms)
    ensures AllLocallyValid(spec, Materialized(world, index, ms))
    ensures Open(pending, Materialized(world, index, ms)) == Open(pending, ms)
    decreases ms
  {
    if ms != [] {
      var m, rest := ms[0], ms[1..];
      assert m in ms && forall x :: x in rest ==> x in ms;
      MaterializeMessageValid(spec, world, index, m, pending);
      MaterializedValid(spec, world, index + 1, rest, {});
      if TrackMessage(pending, m).Some? {
        MaterializedValid(spec, world, index + 1, rest, TrackMessage(pending, m).value);
      }
      assert Materialized(world, index, ms)[1..] == Materialized(world, index + 1, rest);
    }
  }

  /** A view that validates still validates once its images are settled, whatever was answered. */
  lemma MaterializedViewValidates(spec: ModelSpec, world: World, ms: seq<Message>)
    requires Verdict(spec, ms).None?
    ensures Verdict(spec, Materialized(world, 0, ms)).None?
  {
    ValidIff(spec, ms);
    MaterializedValid(spec, world, 0, ms, {});
    ValidIff(spec, Materialized(world, 0, ms));
  }
}
