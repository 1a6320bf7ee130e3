/** Removing arbitrary units, rather than the oldest ones, and what that takes to stay safe. */
module RemovalSafety {
  import opened Wrappers
  import opened Transcript
  import opened ModelView
  import opened Units
  import opened PruneSafety

  predicate UnitSound(spec: ModelSpec, ms: seq<Message>, u: Unit) {
    AllLocallyValid(spec, FullView(spec, Slice(ms, u)))
  }

  predicate UnitsSound(spec: ModelSpec, ms: seq<Message>, units: seq<Unit>) {
    forall u :: u in units ==> UnitSound(spec, ms, u)
  }

  lemma {:induction false} SoundUnitsSurvive(
    spec: ModelSpec, ms: seq<Message>, i: nat, removed: seq<bool>, inserted: bool, count: nat)
    requires i <= |ms| && |removed| == |UnitsFrom(ms, i)|
    requires UnitsSound(spec, ms, UnitsFrom(ms, i))
    ensures AllLocallyValid(spec, FullView(spec, RebuildFrom(ms, UnitsFrom(ms, i), removed, inserted, count)))
    decreases |ms| - i
  {
    if i < |ms| {
      var units := UnitsFrom(ms, i);
      UnitsStep(ms, i);
      assert units[0] in units && forall u :: u in units[1..] ==> u in units;
      var rest := RebuildFrom(ms, units[1..], removed[1..], inserted || removed[0], count);
      SoundUnitsSurvive(spec, ms, UnitEnd(ms, i), removed[1..], inserted || removed[0], count);
      var piece := if !removed[0] then Slice(ms, units[0]) else if inserted then [] else [Marker(count)];
      var left := View(spec, rest, MAX_TOOL_IMAGES).remaining;
      ViewKeepsNewest(spec, rest, MAX_TOOL_IMAGES);
      ViewValidConcat(spec, piece, rest, MAX_TOOL_IMAGES);
      if removed[0] {
        MarkerValid(spec, count);
        SystemViewed(spec, piece, left);
      } else {
        ViewFewer(spec, piece, left, MAX_TOOL_IMAGES);
      }
    }
  }

  /** Marks for removal every removable unit after position `j`. */
  function Newer(units: seq<Unit>, j: int): (r: seq<bool>)
    ensures |r| == |units| && forall k :: 0 <= k < |r| ==> (r[k] <==> units[k].removable && k > j)
  {
    seq(|units|, k requires 0 <= k < |units| => units[k].removable && k > j)
  }

  lemma NewerTail(units: seq<Unit>, j: int)
    requires units != []
    ensures Newer(units, j)[1..] == Newer(units[1..], j - 1)
  {}

  lemma {:induction false} OnlySystemLeft(ms: seq<Message>, i: nat, inserted: bool, count: nat)
    requires i <= |ms|
    ensures AllSystem(RebuildFrom(ms, UnitsFrom(ms, i), Newer(UnitsFrom(ms, i), -1), inserted, count))
    decreases |ms| - i
  {
    if i < |ms| {
      var units, removed := UnitsFrom(ms, i), Newer(UnitsFrom(ms, i), -1);
      UnitsStep(ms, i);
      NewerTail(units, -1);
      assert removed[1..] == Newer(units[1..], -1);
      OnlySystemLeft(ms, UnitEnd(ms, i), inserted || removed[0], count);
      assert !removed[0] ==> Slice(ms, units[0]) == [ms[i]];
    }
  }

  /** Without the removable units after unit `j`, that unit is followed by system messages only. */
  lemma {:induction false} UnitBecomesNewest(ms: seq<Message>, i: nat, j: nat, inserted: bool, count: nat)
    returns (before: seq<Message>, after: seq<Message>)
    requires i <= |ms| && j < |UnitsFrom(ms, i)|
    ensures RebuildFrom(ms, UnitsFrom(ms, i), Newer(UnitsFrom(ms, i), j), inserted, count)
      == before + Slice(ms, UnitsFrom(ms, i)[j]) + after
    ensures AllSystem(after)
    decreases |ms| - i
  {
    var units := UnitsFrom(ms, i);
    var removed := Newer(units, j);
    UnitsStep(ms, i);
    NewerTail(units, j);
    var e := UnitEnd(ms, i);
    FirstKept(ms, i, removed, inserted, count);
    if j == 0 {
      before := [];
      after := RebuildFrom(ms, UnitsFrom(ms, e), removed[1..], inserted, count);
      OnlySystemLeft(ms, e, inserted, count);
      assert before + Slice(ms, units[0]) == Slice(ms, units[0]);
    } else {
      var b;
      b, after := UnitBecomesNewest(ms, e, j - 1, inserted, count);
      before := Slice(ms, units[0]) + b;
      Assoc(Slice(ms, units[0]), b, Slice(ms, units[j]));
      Assoc(Slice(ms, units[0]), b + Slice(ms, units[j]), after);
    }
  }

  lemma FirstKept(ms: seq<Message>, i: nat, removed: seq<bool>, inserted: bool, count: nat)
    requires i < |ms| && |removed| == |UnitsFrom(ms, i)| && !removed[0]
    ensures |removed[1..]| == |UnitsFrom(ms, UnitEnd(ms, i))|
    ensures RebuildFrom(ms, UnitsFrom(ms, i), removed, inserted, count)
      == Slice(ms, UnitsFrom(ms, i)[0]) + RebuildFrom(ms, UnitsFrom(ms, UnitEnd(ms, i)), removed[1..], inserted, count)
  {
    UnitsStep(ms, i);
  }

  lemma {:induction false} UnitsPaired(ms: seq<Message>, i: nat, u: Unit)
    requires i <= |ms| && Paired(ms[i..]) && u in UnitsFrom(ms, i)
    ensures Paired(Slice(ms, u))
    decreases |ms| - i
  {
    UnitsStep(ms, i);
    UnitPaired(ms, i);
    if u != UnitsFrom(ms, i)[0] {
      UnitsPaired(ms, UnitEnd(ms, i), u);
    }
  }

  /** Every choice of removable units leaves an acceptable view. */
  ghost predicate AnyRemovalAcceptable(spec: ModelSpec, ms: seq<Message>) {
    forall removed :: Allowed(UnitsFrom(ms, 0), removed) ==>
      Acceptable(spec, FullView(spec, Rebuild(ms, UnitsFrom(ms, 0), removed)))
  }

  /** Each unit, shown alone with the whole image budget, is acceptable. */
  predicate EachUnitAcceptable(spec: ModelSpec, ms: seq<Message>) {
    forall u :: u in UnitsFrom(ms, 0) ==> Acceptable(spec, FullView(spec, Slice(ms, u)))
  }

  /**
   Deleting arbitrary units can revive images that newer ones had displaced. It is safe for every choice
   of units exactly when each unit on its own is shown acceptably.
   */
  lemma AnyRemovalSafeIff(spec: ModelSpec, ms: seq<Message>)
    requires Paired(ms)
    ensures AnyRemovalAcceptable(spec, ms) <==> EachUnitAcceptable(spec, ms)
  {
    var units := UnitsFrom(ms, 0);
    assert ms[0..] == ms;
    if EachUnitAcceptable(spec, ms) {
      forall removed | Allowed(units, removed)
        ensures Acceptable(spec, FullView(spec, Rebuild(ms, units, removed)))
      {
        var count := RemovedCount(units, removed);
        SoundUnitsSurvive(spec, ms, 0, removed, false, count);
        RebuildPaired(ms, 0, removed, false, count);
        ViewKeepsOpen(spec, Rebuild(ms, units, removed), MAX_TOOL_IMAGES, {});
      }
    }
    if AnyRemovalAcceptable(spec, ms) {
      forall u | u in units ensures Acceptable(spec, FullView(spec, Slice(ms, u))) {
        UnitsPaired(ms, 0, u);
        ViewKeepsOpen(spec, Slice(ms, u), MAX_TOOL_IMAGES, {});
        var j :| 0 <= j < |units| && units[j] == u;
        var removed := Newer(units, j);
        var before, after := UnitBecomesNewest(ms, 0, j, false, RemovedCount(units, removed));
        assert Allowed(units, removed);
        ViewValidConcat(spec, before + Slice(ms, u), after, MAX_TOOL_IMAGES);
        SystemViewed(spec, after, MAX_TOOL_IMAGES);
        ViewValidConcat(spec, before, Slice(ms, u), MAX_TOOL_IMAGES);
      }
    }
  }

  /** Marks for removal every removable unit but the one at `j`. */
  function AllBut(units: seq<Unit>, j: int): (r: seq<bool>)
    ensures Allowed(units, r)
  {
    seq(|units|, k requires 0 <= k < |units| => units[k].removable && k != j)
  }

  lemma AllButTail(units: seq<Unit>, j: int)
    requires units != []
    ensures AllBut(units, j)[1..] == AllBut(units[1..], j - 1)
  {}

  /** What is left besides system messages is the unit that was spared. */
  lemma {:induction false} SparedUnitLeft(ms: seq<Message>, i: nat, j: int, inserted: bool, count: nat)
    requires i <= |ms|
    ensures
      var units := UnitsFrom(ms, i);
      var left := RebuildFrom(ms, units, AllBut(units, j), inserted, count);
      if 0 <= j < |units| then
        && (forall m <- left :: m.role == System || m in Slice(ms, units[j]))
        && forall m <- Slice(ms, units[j]) :: m in left
      else AllSystem(left)
    decreases |ms| - i
  {
    if i < |ms| {
      var units, removed := UnitsFrom(ms, i), AllBut(UnitsFrom(ms, i), j);
      UnitsStep(ms, i);
      AllButTail(units, j);
      SparedUnitLeft(ms, UnitEnd(ms, i), j - 1, inserted || removed[0], count);
      assert !removed[0] && j != 0 ==> Slice(ms, units[0]) == [ms[i]];
    }
  }

  /** Every choice of removable units leaves a request that validation accepts. */
  ghost predicate AnyRemovalAccepted(spec: ModelSpec, ms: seq<Message>) {
    forall removed :: Allowed(UnitsFrom(ms, 0), removed) ==>
      Verdict(spec, Project(spec, Rebuild(ms, UnitsFrom(ms, 0), removed))).None?
  }

  /** Spared alone, an empty assistant message takes the borrowed path and is refused. */
  lemma EmptyAlone(spec: ModelSpec, ms: seq<Message>, i: nat) returns (removed: seq<bool>)
    requires i < |ms| && EmptyAssistant(ms[i])
    ensures Allowed(UnitsFrom(ms, 0), removed)
    ensures Verdict(spec, Project(spec, Rebuild(ms, UnitsFrom(ms, 0), removed))).Some?
  {
    var units, j := UnitsFrom(ms, 0), UnitsBefore(ms, 0, i);
    removed := AllBut(units, j);
    var left := Rebuild(ms, units, removed);
    var _ := OldestUpToMessage(ms, 0, i, false, 0);
    SparedUnitLeft(ms, 0, j, false, RemovedCount(units, removed));
    assert Slice(ms, units[j]) == [ms[i]];
    assert forall m <- left :: !Rewritten(spec, m);
    assert ms[i] in left && !LocallyValid(spec, ms[i]);
    ValidIff(spec, left);
  }

  /**
   Removing any units of an accepted transcript leaves it accepted exactly when each unit, shown on its own, is
   acceptable and no assistant message is empty.
   */
  lemma AnyRemovalAcceptedIff(spec: ModelSpec, ms: seq<Message>)
    requires Paired(ms) && Verdict(spec, Project(spec, ms)).None?
    ensures AnyRemovalAccepted(spec, ms) <==> EachUnitAcceptable(spec, ms) && NoEmptyAssistant(ms)
  {
    var units := UnitsFrom(ms, 0);
    AnyRemovalSafeIff(spec, ms);
    if AnyRemovalAccepted(spec, ms) {
      forall removed | Allowed(units, removed)
        ensures Acceptable(spec, FullView(spec, Rebuild(ms, units, removed)))
      {
        AcceptedIsAcceptable(spec, ms, removed);
      }
      forall m | m in ms && m.role == Assistant ensures m.content != [] {
        var i :| 0 <= i < |ms| && ms[i] == m;
        if m.content == [] {
          var removed := EmptyAlone(spec, ms, i);
        }
      }
    }
    if EachUnitAcceptable(spec, ms) && NoEmptyAssistant(ms) {
      forall removed | Allowed(units, removed)
        ensures Verdict(spec, Project(spec, Rebuild(ms, units, removed))).None?
      {
        AcceptableIsAccepted(spec, ms, removed);
      }
    }
  }

  lemma AcceptedIsAcceptable(spec: ModelSpec, ms: seq<Message>, removed: seq<bool>)
    requires Paired(ms) && Allowed(UnitsFrom(ms, 0), removed)
    requires Verdict(spec, Project(spec, Rebuild(ms, UnitsFrom(ms, 0), removed))).None?
    ensures Acceptable(spec, FullView(spec, Rebuild(ms, UnitsFrom(ms, 0), removed)))
  {
    var rebuilt := Rebuild(ms, UnitsFrom(ms, 0), removed);
    assert ms[0..] == ms;
    RebuildPaired(ms, 0, removed, false, RemovedCount(UnitsFrom(ms, 0), removed));
    ValidIff(spec, Project(spec, rebuilt));
    AcceptableFullView(spec, rebuilt);
  }

  lemma AcceptableIsAccepted(spec: ModelSpec, ms: seq<Message>, removed: seq<bool>)
    requires Verdict(spec, Project(spec, ms)).None? && NoEmptyAssistant(ms) && Allowed(UnitsFrom(ms, 0), removed)
    requires Acceptable(spec, FullView(spec, Rebuild(ms, UnitsFrom(ms, 0), removed)))
    ensures Verdict(spec, Project(spec, Rebuild(ms, UnitsFrom(ms, 0), removed))).None?
  {
    var units := UnitsFrom(ms, 0);
    var count := RemovedCount(units, removed);
    var rebuilt := Rebuild(ms, units, removed);
    assert ms[0..] == ms;
    if true in removed {
      RebuildMembers(ms, 0, removed, false, count);
      if !Changes(spec, rebuilt) {
        FastPathIff(spec, rebuilt);
      }
      RebuildNotEmpty(ms, 0, removed, count);
      SystemShown(spec, rebuilt, MAX_TOOL_IMAGES, Marker(count));
      ValidIff(spec, Project(spec, rebuilt));
    } else {
      NothingRemoved(ms, 0, removed, false, count);
    }
  }

  // ----- an accepted transcript that one removal breaks -----

  function Call(id: string): Message {
    Message(Assistant, [ToolCall(id, "capture", JsonObject(0))])
  }

  function Answer(id: string, images: seq<Block>): Message {
    Message(Tool, [ToolResult(id, Plain(0), false)] + images)
  }

  const PICTURE: Block := Image(Base64(Media(Png, 0), "AAAA"))
  const LINK: Block := Image(Url("u"))

  predicate OnlyImages(images: seq<Block>) {
    forall b :: b in images ==> b.Image?
  }

  lemma OnlyImagesTail(images: seq<Block>)
    requires OnlyImages(images) && images != []
    ensures images[0].Image? && OnlyImages(images[1..])
  {
    assert images[0] in images && forall b :: b in images[1..] ==> b in images;
  }

  lemma {:induction false} ImagesAlone(images: seq<Block>)
    requires OnlyImages(images)
    ensures Marks(images) == [] && StripNotices(images) == images
    ensures ImageCount(images) == |images| && ResultCount(images) == 0
  {
    if images != [] {
      OnlyImagesTail(images);
      ImagesAlone(images[1..]);
    }
  }

  lemma AnswerShape(id: string, images: seq<Block>)
    requires OnlyImages(images)
    ensures
      var a := Answer(id, images).content;
      && StripNotices(a) == a && Marks(a) == [Answered(id)]
      && ImageCount(a) == |images| && ResultCount(a) == 1
      && (images != [] ==> HasImage(a))
  {
    var a := Answer(id, images).content;
    ImagesAlone(images);
    assert a[1..] == images;
    if images != [] {
      assert a[1] == images[0] && images[0] in images;
    }
  }

  lemma AnsweredUnit(id: string, images: seq<Block>)
    requires OnlyImages(images)
    ensures Paired([Call(id), Answer(id, images)])
  {
    var c, a := Call(id), Answer(id, images);
    AnswerShape(id, images);
    assert c.content[1..] == [];
    assert Marks(c.content) == [Asked(id)];
    assert MarkedAnswers([Answered(id)]) == [id] && CallIds([Asked(id)]) == [id] by {
      assert [Answered(id)][1..] == [] && [Asked(id)][1..] == [];
    }
    assert AnswerIds([a]) == [id] by {
      assert [a][1..] == [];
    }
    AnsweredCallsIff(c, [a]);
    assert [c, a] == [c] + [a];
  }

  /** A selection that keeps every block of a message leaves it as it was. */
  lemma {:induction false} SelectAll(spec: ModelSpec, bs: seq<Block>, budget: nat)
    requires ImageCount(bs) <= budget
    requires forall b :: b in bs && b.Image? ==> Admissible(spec, b.source)
    ensures Select(spec, bs, budget).kept == bs && Select(spec, bs, budget).remaining == budget - ImageCount(bs)
  {
    if bs != [] {
      var older, b := bs[..|bs| - 1], bs[|bs| - 1];
      assert bs == older + [b] && b in bs && forall x :: x in older ==> x in bs;
      CountsConcat(older, [b]);
      assert [b][1..] == [];
      SelectStep(spec, older, b, budget);
      SelectAll(spec, older, if b.Image? then budget - 1 else budget);
    }
  }

  /** An answer whose images all fit is shown whole. */
  lemma AnswerShownWhole(spec: ModelSpec, id: string, images: seq<Block>, budget: nat)
    requires spec.tools && spec.images && id != "" && OnlyImages(images) && 0 < |images| <= budget <= MAX_MESSAGE_IMAGES
    requires forall b :: b in images ==> Admissible(spec, b.source)
    ensures ViewMessage(spec, Answer(id, images), budget).remaining == budget - |images|
    ensures AllLocallyValid(spec, ViewMessage(spec, Answer(id, images), budget).messages)
      <==> Unobjectionable(spec, Tool, images)
  {
    var a := Answer(id, images);
    AnswerShape(id, images);
    SelectAll(spec, a.content, budget);
    ToolViewValidIff(spec, a, budget);
    ResultAnd(spec, id, images);
  }

  lemma ResultAnd(spec: ModelSpec, id: string, images: seq<Block>)
    requires spec.tools && id != ""
    ensures Unobjectionable(spec, Tool, Answer(id, images).content) <==> Unobjectionable(spec, Tool, images)
  {
    assert forall b :: b in Answer(id, images).content <==> b == ToolResult(id, Plain(0), false) || b in images;
  }

  /** Without any budget left a single image is dropped and the bare answer is valid. */
  lemma AnswerShownBare(spec: ModelSpec, id: string, image: Block)
    requires spec.tools && id != "" && image.Image?
    ensures ViewMessage(spec, Answer(id, [image]), 0).remaining == 0
    ensures AllLocallyValid(spec, ViewMessage(spec, Answer(id, [image]), 0).messages)
  {
    var a := Answer(id, [image]);
    AnswerShape(id, [image]);
    BareSelected(spec, id, image);
    ToolViewValidIff(spec, a, 0);
  }

  lemma BareSelected(spec: ModelSpec, id: string, image: Block)
    requires spec.tools && id != "" && image.Image?
    ensures
      var s := Select(spec, [ToolResult(id, Plain(0), false)] + [image], 0);
      s.remaining == 0 && SelectionValid(spec, s)
  {
    var r := ToolResult(id, Plain(0), false);
    RejectionIff(spec, image.source, 0);
    SelectStep(spec, [r], image, 0);
    SelectStep(spec, [], r, 0);
    assert [] + [r] == [r] && [r][1..] == [];
  }

  /** A call followed by its answer is shown as the answer is. */
  lemma UnitShown(spec: ModelSpec, id: string, images: seq<Block>, budget: nat)
    requires spec.tools && id != ""
    ensures
      var unit, answer := [Call(id), Answer(id, images)], ViewMessage(spec, Answer(id, images), budget);
      && View(spec, unit, budget).remaining == answer.remaining
      && (AllLocallyValid(spec, View(spec, unit, budget).messages) <==> AllLocallyValid(spec, answer.messages))
  {
    var c, a := Call(id), Answer(id, images);
    var left := ViewMessage(spec, a, budget).remaining;
    assert [c, a] == [c] + [a];
    ViewSingle(spec, a, budget);
    ViewSingle(spec, c, left);
    ViewValidConcat(spec, [c], [a], budget);
    ViewConcat(spec, [c], [a], budget);
    CallShown(spec, id, left);
  }

  /** A call is shown as it is, and is valid on its own. */
  lemma CallShown(spec: ModelSpec, id: string, budget: nat)
    requires spec.tools && id != ""
    ensures ViewMessage(spec, Call(id), budget) == Viewing([Call(id)], budget)
    ensures AllLocallyValid(spec, [Call(id)])
  {
    var c := Call(id);
    assert c.content[1..] == [];
    assert DropReasoning(c.content) == c.content;
    assert LocallyValid(spec, c);
  }

  function Revived(newer: seq<Block>): seq<Message> {
    [Call("a"), Answer("a", [LINK])] + [Call("b"), Answer("b", newer)]
  }

  lemma RevivedAccepted(spec: ModelSpec, newer: seq<Block>)
    requires spec.tools && spec.images && OnlyImages(newer) && |newer| == MAX_TOOL_IMAGES
    requires Unobjectionable(spec, Tool, newer) && forall b :: b in newer ==> Admissible(spec, b.source)
    ensures Paired(Revived(newer)) && Acceptable(spec, FullView(spec, Revived(newer)))
  {
    var first, second := [Call("a"), Answer("a", [LINK])], [Call("b"), Answer("b", newer)];
    AnsweredUnit("a", [LINK]);
    AnsweredUnit("b", newer);
    PairedConcat(first, second);
    ViewKeepsOpen(spec, first + second, MAX_TOOL_IMAGES, {});
    UnitShown(spec, "b", newer, MAX_TOOL_IMAGES);
    AnswerShownWhole(spec, "b", newer, MAX_TOOL_IMAGES);
    UnitShown(spec, "a", [LINK], 0);
    AnswerShownBare(spec, "a", LINK);
    ViewValidConcat(spec, first, second, MAX_TOOL_IMAGES);
  }

  lemma RevivedUnits(newer: seq<Block>)
    ensures
      var ms := Revived(newer);
      && UnitsFrom(ms, 0) == [Unit(0, 2, true), Unit(2, 4, true)]
      && Rebuild(ms, UnitsFrom(ms, 0), [false, true]) == [Call("a"), Answer("a", [LINK])] + [Marker(2)]
  {
    var ms := Revived(newer);
    assert Call("a").content[0] in Call("a").content && Call("b").content[0] in Call("b").content;
    assert SkipTools(ms, 1) == SkipTools(ms, 2) == 2 && SkipTools(ms, 3) == SkipTools(ms, 4) == 4;
    assert UnitsFrom(ms, 4) == [] && UnitsFrom(ms, 2) == [Unit(2, 4, true)];
    var units, removed := UnitsFrom(ms, 0), [false, true];
    assert units[1..] == [Unit(2, 4, true)] && removed[1..] == [true];
    assert units[1..][1..] == [] && removed[1..][1..] == [];
    assert RemovedCount(units[1..], removed[1..]) == 2 && RemovedCount(units, removed) == 2;
    assert RebuildFrom(ms, units[1..], removed[1..], false, 2) == [Marker(2)] + [];
    assert Slice(ms, units[0]) == [Call("a"), Answer("a", [LINK])];
  }

  /** A transcript that asks something is never shown as nothing. */
  lemma ShownSomething(spec: ModelSpec, ms: seq<Message>)
    requires Reading(ms) != []
    ensures FullView(spec, ms) != []
  {
    ViewKeepsReading(spec, ms, MAX_TOOL_IMAGES);
  }

  /** An old linked image that four newer pictures displace is refused once their unit is removed. */
  lemma RemovalRevivesImage(spec: ModelSpec, newer: seq<Block>)
    requires spec.tools && spec.images && newer == seq(MAX_TOOL_IMAGES, i => PICTURE)
    ensures
      var ms := Revived(newer);
      && Paired(ms) && Verdict(spec, Project(spec, ms)).None?
      && Allowed(UnitsFrom(ms, 0), [false, true])
      && Verdict(spec, Project(spec, Rebuild(ms, UnitsFrom(ms, 0), [false, true]))).Some?
  {
    var ms, first := Revived(newer), [Call("a"), Answer("a", [LINK])];
    RevivedAccepted(spec, newer);
    RevivedUnits(newer);
    AnswerShape("a", [LINK]);
    assert Rewritten(spec, ms[1]) && ms[1] in ms;
    assert Call("a").content[1..] == [] && Marks(Call("a").content) == [Asked("a")];
    ShownSomething(spec, ms);
    ValidIff(spec, Project(spec, ms));
    RevivedRefused(spec, first);
  }

  /** A linked image that is shown is refused. */
  lemma LinkRefused(spec: ModelSpec)
    requires spec.tools && spec.images
    ensures !AllLocallyValid(spec, View(spec, [Call("a"), Answer("a", [LINK])], MAX_TOOL_IMAGES).messages)
  {
    UnitShown(spec, "a", [LINK], MAX_TOOL_IMAGES);
    assert LINK in [LINK];
    AnswerShownWhole(spec, "a", [LINK], MAX_TOOL_IMAGES);
  }

  lemma RevivedRefused(spec: ModelSpec, first: seq<Message>)
    requires spec.tools && spec.images && first == [Call("a"), Answer("a", [LINK])]
    ensures Verdict(spec, Project(spec, first + [Marker(2)])).Some?
  {
    var rebuilt := first + [Marker(2)];
    AnswerShape("a", [LINK]);
    assert rebuilt[1] in rebuilt && Rewritten(spec, rebuilt[1]);
    LinkRefused(spec);
    SystemViewed(spec, [Marker(2)], MAX_TOOL_IMAGES);
    ViewValidConcat(spec, first, [Marker(2)], MAX_TOOL_IMAGES);
    ValidIff(spec, Project(spec, rebuilt));
  }
}
