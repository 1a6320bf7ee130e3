/** What resolving the tool images of a view leaves of it, image by image. */
module Resolution {
  import opened Wrappers
  import opened Transcript
  import opened ModelView
  import opened Projection
  import T = ToolImages

  // ----- which pictures are accepted -----

  predicate Sextet(c: char) {
    'A' <= c <= 'Z' || 'a' <= c <= 'z' || '0' <= c <= '9' || c == '+' || c == '/'
  }

  /** Whole groups of four: base64 characters, then `pad` equal signs, for at most 256 KiB of bytes. */
  ghost predicate Encoded(data: string, pad: nat) {
    && pad <= 2 && pad <= |data| && 0 < |data| && |data| % 4 == 0
    && (forall i :: 0 <= i < |data| - pad ==> Sextet(data[i]))
    && (forall i :: |data| - pad <= i < |data| ==> data[i] == '=')
    && |data| / 4 * 3 - pad <= 262144
  }

  ghost predicate Acceptable(media: Media, data: string) {
    && (media.kind.Jpeg? || media.kind.Png? || media.kind.Gif? || media.kind.Webp?)
    && exists pad: nat :: Encoded(data, pad)
  }

  lemma {:induction false} TrimmedIs(data: string)
    ensures
      var body := T.TrimPadding(data);
      && body <= data && (forall i :: |body| <= i < |data| ==> data[i] == '=')
      && (body != [] ==> body[|body| - 1] != '=')
    decreases |data|
  {
    if data != [] && data[|data| - 1] == '=' {
      TrimmedIs(data[..|data| - 1]);
    }
  }

  lemma PaddingIs(data: string, pad: nat)
    requires pad <= |data| && forall i :: |data| - pad <= i < |data| ==> data[i] == '='
    requires pad < |data| ==> data[|data| - pad - 1] != '='
    ensures T.TrimPadding(data) == data[..|data| - pad] && T.Padding(data) == pad
  {
    TrimmedIs(data);
    assert |T.TrimPadding(data)| == |data| - pad;
  }

  lemma EncodedIff(data: string)
    ensures
      (exists pad: nat :: Encoded(data, pad)) <==>
      && data != [] && |data| % 4 == 0 && T.Padding(data) <= 2
      && |data| / 4 * 3 - T.Padding(data) <= 262144
      && forall c :: c in T.TrimPadding(data) ==> T.Base64Char(c)
  {
    TrimmedIs(data);
    var body := T.TrimPadding(data);
    if pad: nat :| Encoded(data, pad) {
      assert pad < |data| ==> Sextet(data[|data| - pad - 1]);
      PaddingIs(data, pad);
      forall c | c in body ensures T.Base64Char(c) {
        var i :| 0 <= i < |body| && body[i] == c;
        assert Sextet(data[i]);
      }
    }
    if data != [] && |data| % 4 == 0 && T.Padding(data) <= 2 && |data| / 4 * 3 - T.Padding(data) <= 262144
       && forall c :: c in body ==> T.Base64Char(c) {
      forall i | 0 <= i < |body| ensures Sextet(data[i]) {
        assert body[i] == data[i] && body[i] in body;
      }
      assert Encoded(data, T.Padding(data));
    }
  }

  /** A picture becomes a preview exactly when it is displayable and well encoded, and it is that very picture. */
  lemma PreviewIff(media: Media, data: string)
    ensures T.NewPreview(media, data) ==
      if Acceptable(media, data) then Ok(Base64(Media(media.kind, 0), data))
      else Err(if media.kind.NotImage? then T.InvalidError else T.LimitError)
  {
    EncodedIff(data);
  }

  // ----- what becomes of each image -----

  datatype Fate = Replaced(picture: ImageSource) | Lost(why: Status)

  ghost function FateOf(media: Media, data: string): Fate {
    if Acceptable(media, data) then Replaced(Base64(Media(media.kind, 0), data))
    else Lost(if media.kind.NotImage? then InvalidImage else ImageLimit)
  }

  /** An artifact is what the resolver answers for it, an inline picture stands for itself, a link is lost. */
  ghost function Fated(world: T.World, message: nat, image: nat, source: ImageSource): Fate {
    match source
    case Url(_) => Lost(InvalidImage)
    case Base64(media, data) => FateOf(media, data)
    case Artifact(_) =>
      if world.resolver.None? then Lost(Unavailable)
      else
        match world.resolver.value(message, image)
        case Preview(media, data) => FateOf(media, data)
        case Failed(UnavailableError) => Lost(Unavailable)
        case Failed(InvalidError) => Lost(InvalidImage)
        case Failed(LimitError) => Lost(ImageLimit)
        case Failed(TimeoutError) => Lost(ImageTimeout)
  }

  ghost function Remains(b: Block, fate: Fate): seq<Block> {
    if !b.Image? then [b] else if fate.Replaced? then [Image(fate.picture)] else []
  }

  ghost function Outcome(b: Block, fate: Fate): seq<Notice> {
    if !b.Image? then []
    else
      [Observed(if b.source.Artifact? then Some(b.source.reference.id) else None,
                if fate.Replaced? then NormalizedPreview else fate.why)]
  }

  ghost function FateAt(world: T.World, message: nat, bs: seq<Block>, i: nat): Fate
    requires i < |bs|
  {
    if bs[i].Image? then Fated(world, message, ImageCount(bs[..i]), bs[i].source) else Lost(Unavailable)
  }

  /** What is left of the first `n` blocks, images numbered from the first. */
  ghost function LeftOf(world: T.World, message: nat, bs: seq<Block>, n: nat): seq<Block>
    requires n <= |bs|
  {
    if n == 0 then []
    else LeftOf(world, message, bs, n - 1) + Remains(bs[n - 1], FateAt(world, message, bs, n - 1))
  }

  /** One notice for each image, in order. */
  ghost function OutcomesOf(world: T.World, message: nat, bs: seq<Block>, n: nat): seq<Notice>
    requires n <= |bs|
  {
    if n == 0 then []
    else OutcomesOf(world, message, bs, n - 1) + Outcome(bs[n - 1], FateAt(world, message, bs, n - 1))
  }

  lemma ResolvedIs(world: T.World, message: nat, image: nat, source: ImageSource)
    ensures
      var r, fate := T.Resolve(world, message, image, source), Fated(world, message, image, source);
      if fate.Replaced? then r == Ok(fate.picture) else r.Err? && T.Code(r.error) == fate.why
  {
    match source
    case Url(_) =>
    case Base64(media, data) => PreviewIff(media, data);
    case Artifact(_) =>
      if world.resolver.Some? {
        match world.resolver.value(message, image)
        case Preview(media, data) => PreviewIff(media, data);
        case Failed(_) =>
      }
  }

  lemma SettleStep(world: T.World, message: nat, image: nat, b: Block, bs: seq<Block>)
    ensures
      var fate := if b.Image? then Fated(world, message, image, b.source) else Lost(Unavailable);
      var rest := T.Settle(world, message, if b.Image? then image + 1 else image, bs);
      T.Settle(world, message, image, [b] + bs) ==
        T.Settled(Remains(b, fate) + rest.kept, Outcome(b, fate) + rest.observed)
  {
    assert ([b] + bs)[1..] == bs;
    if b.Image? {
      ResolvedIs(world, message, image, b.source);
    }
  }

  lemma CutOne(bs: seq<Block>, n: nat)
    requires n < |bs|
    ensures bs[n..] == [bs[n]] + bs[n + 1..]
    ensures ImageCount(bs[..n + 1]) == ImageCount(bs[..n]) + if bs[n].Image? then 1 else 0
  {
    assert bs[..n + 1] == bs[..n] + [bs[n]];
    CountsConcat(bs[..n], [bs[n]]);
    CountsOne(bs[n]);
  }

  /** The forward pass from block `n` on, behind what the blocks before it left. */
  lemma {:induction false} SettledFrom(world: T.World, message: nat, bs: seq<Block>, n: nat)
    requires n <= |bs|
    ensures
      var rest := T.Settle(world, message, ImageCount(bs[..n]), bs[n..]);
      && LeftOf(world, message, bs, n) + rest.kept == LeftOf(world, message, bs, |bs|)
      && OutcomesOf(world, message, bs, n) + rest.observed == OutcomesOf(world, message, bs, |bs|)
    decreases |bs| - n
  {
    if n == |bs| {
      assert bs[n..] == [];
    } else {
      var fate := FateAt(world, message, bs, n);
      CutOne(bs, n);
      SettleStep(world, message, ImageCount(bs[..n]), bs[n], bs[n + 1..]);
      SettledFrom(world, message, bs, n + 1);
      var rest := T.Settle(world, message, ImageCount(bs[..n + 1]), bs[n + 1..]);
      Assoc(LeftOf(world, message, bs, n), Remains(bs[n], fate), rest.kept);
      Assoc(OutcomesOf(world, message, bs, n), Outcome(bs[n], fate), rest.observed);
    }
  }

  /**
   A tool message keeps its blocks in order; each image is the picture accepted for it, or gone, and the first
   result says which. Every other message is left alone.
   */
  lemma MessageExact(world: T.World, index: nat, m: Message)
    ensures T.MaterializeMessage(world, index, m) ==
      if m.role != Tool then m
      else
        m.(content := WithNotices(LeftOf(world, index, m.content, |m.content|),
                                  OutcomesOf(world, index, m.content, |m.content|)))
  {
    if m.role == Tool {
      assert m.content[..0] == [] && m.content[0..] == m.content;
      SettledFrom(world, index, m.content, 0);
      var s := T.Settle(world, index, 0, m.content);
      assert [] + s.kept == s.kept && [] + s.observed == s.observed;
      NoticesLand(s.kept, s.observed);
    }
  }

  // ----- the pictures the model is shown -----

  ghost function Picture(b: Block, fate: Fate): seq<ImageSource> {
    if b.Image? && fate.Replaced? then [fate.picture] else []
  }

  /** The pictures accepted for the images among the first `n` blocks. */
  ghost function PicturesOf(world: T.World, message: nat, bs: seq<Block>, n: nat): seq<ImageSource>
    requires n <= |bs|
  {
    if n == 0 then []
    else PicturesOf(world, message, bs, n - 1) + Picture(bs[n - 1], FateAt(world, message, bs, n - 1))
  }

  ghost function MessagePictures(world: T.World, index: nat, m: Message): seq<ImageSource> {
    if m.role == Tool then PicturesOf(world, index, m.content, |m.content|) else []
  }

  ghost function AllPictures(world: T.World, ms: seq<Message>, n: nat): seq<ImageSource>
    requires n <= |ms|
  {
    if n == 0 then [] else AllPictures(world, ms, n - 1) + MessagePictures(world, n - 1, ms[n - 1])
  }

  lemma RemainsPicture(b: Block, fate: Fate)
    ensures Images(Remains(b, fate)) == Picture(b, fate)
  {
    assert Remains(b, fate) != [] ==> Remains(b, fate)[1..] == [];
  }

  lemma {:induction false} LeftPictures(world: T.World, message: nat, bs: seq<Block>, n: nat)
    requires n <= |bs|
    ensures Images(LeftOf(world, message, bs, n)) == PicturesOf(world, message, bs, n)
    decreases n
  {
    if n > 0 {
      var b, fate := bs[n - 1], FateAt(world, message, bs, n - 1);
      LeftPictures(world, message, bs, n - 1);
      ImagesConcat(LeftOf(world, message, bs, n - 1), Remains(b, fate));
      RemainsPicture(b, fate);
    }
  }

  lemma ShownIn(world: T.World, index: nat, m: Message)
    ensures ToolImages([T.MaterializeMessage(world, index, m)]) == MessagePictures(world, index, m)
  {
    OneMessageImages(T.MaterializeMessage(world, index, m));
    if m.role == Tool {
      var s := T.Settle(world, index, 0, m.content);
      assert m.content[..0] == [] && m.content[0..] == m.content && [] + s.kept == s.kept;
      SettledFrom(world, index, m.content, 0);
      AnnotationsKeepImages(s.kept, s.observed);
      LeftPictures(world, index, m.content, |m.content|);
    }
  }

  lemma {:induction false} PicturesShownTo(world: T.World, ms: seq<Message>, n: nat)
    requires n <= |ms|
    ensures ToolImages(T.Materialized(world, 0, ms)[..n]) == AllPictures(world, ms, n)
    decreases n
  {
    var now := T.Materialized(world, 0, ms);
    if n == 0 {
      assert now[..0] == [];
    } else {
      PicturesShownTo(world, ms, n - 1);
      OneMoreShown(world, ms, now, n - 1);
    }
  }

  lemma OneMoreShown(world: T.World, ms: seq<Message>, now: seq<Message>, n: nat)
    requires now == T.Materialized(world, 0, ms) && n < |ms|
    ensures ToolImages(now[..n + 1]) == ToolImages(now[..n]) + MessagePictures(world, n, ms[n])
  {
    T.MaterializedAt(world, 0, ms, n);
    ShownIn(world, n, ms[n]);
    assert now[..n + 1] == now[..n] + [now[n]];
    ToolImagesConcat(now[..n], [now[n]]);
  }

  /**
   The tool images of a materialized view are exactly the accepted answers for its artifacts and its accepted
   inline pictures, each with its own data, in transcript order.
   */
  lemma PicturesShown(world: T.World, ms: seq<Message>)
    ensures ToolImages(T.Materialized(world, 0, ms)) == AllPictures(world, ms, |ms|)
  {
    PicturesShownTo(world, ms, |ms|);
    var now := T.Materialized(world, 0, ms);
    assert now[..|ms|] == now;
  }
}
