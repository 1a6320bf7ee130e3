/** When a pruned transcript still projects to a request the provider accepts. */
module PruneSafety {
  import opened Wrappers
  import opened Transcript
  import opened ModelView
  import opened Units
  import opened Pruning
  import opened PruneShape
  import Previews = ToolImages

  // ----- fewer images never make a message worse -----

  /** What a smaller image budget keeps of one tool message, compared with a larger one. */
  predicate Fewer(few: Selection, many: Selection) {
    && few.remaining <= many.remaining
    && (forall b :: b in few.kept ==> b in many.kept)
    && ImageCount(few.kept) <= ImageCount(many.kept)
    && ResultCount(few.kept) == ResultCount(many.kept)
    && |few.kept| + ImageCount(many.kept) == |many.kept| + ImageCount(few.kept)
  }

  lemma FewerExtend(few: Selection, many: Selection, b: Block, keptFew: bool)
    requires Fewer(few, many) && (!keptFew ==> b.Image?)
    ensures Fewer(few.(kept := if keptFew then few.kept + [b] else few.kept), many.(kept := many.kept + [b]))
  {
    CountsConcat(many.kept, [b]);
    CountsConcat(few.kept, [b]);
    assert [b][1..] == [];
  }

  lemma {:induction false} SelectFewer(spec: ModelSpec, bs: seq<Block>, r: nat, q: nat)
    requires r <= q
    ensures Fewer(Select(spec, bs, r), Select(spec, bs, q))
  {
    if bs != [] {
      var older, b := bs[..|bs| - 1], bs[|bs| - 1];
      assert bs == older + [b];
      SelectStep(spec, older, b, r);
      SelectStep(spec, older, b, q);
      var shownR := b.Image? && Rejection(spec, b.source, r).None?;
      var shownQ := b.Image? && Rejection(spec, b.source, q).None?;
      if b.Image? {
        RejectionIff(spec, b.source, r);
        RejectionIff(spec, b.source, q);
      }
      var nextR, nextQ := if shownR then r - 1 else r, if shownQ then q - 1 else q;
      SelectFewer(spec, older, nextR, nextQ);
      var few, many := Select(spec, older, nextR), Select(spec, older, nextQ);
      if !b.Image? || shownQ {
        FewerExtend(few, many, b, !b.Image? || shownR);
      }
    }
  }

  /** A tool message as the view shows it: local validity read off the selection. */
  predicate SelectionValid(spec: ModelSpec, s: Selection) {
    && s.kept != []
    && ImageCount(s.kept) <= MAX_MESSAGE_IMAGES
    && (ImageCount(s.kept) > 0 ==> ResultCount(s.kept) == 1)
    && Unobjectionable(spec, Tool, s.kept)
  }

  lemma ToolViewValidIff(spec: ModelSpec, m: Message, budget: nat)
    requires m.role == Tool && HasImage(m.content)
    ensures AllLocallyValid(spec, ViewMessage(spec, m, budget).messages)
      <==> SelectionValid(spec, Select(spec, StripNotices(m.content), budget))
  {
    var s := Select(spec, StripNotices(m.content), budget);
    AnnotationsHarmless(spec, Tool, s.kept, Upto(s.notices, MAX_NOTICES));
    var shown := m.(content := AddNotices(s.kept, Upto(s.notices, MAX_NOTICES)));
    assert ViewMessage(spec, m, budget).messages == [shown];
    assert AllLocallyValid(spec, [shown]) <==> LocallyValid(spec, shown);
  }

  lemma ViewMessageFewer(spec: ModelSpec, m: Message, r: nat, q: nat)
    requires r <= q
    ensures ViewMessage(spec, m, r).remaining <= ViewMessage(spec, m, q).remaining
    ensures AllLocallyValid(spec, ViewMessage(spec, m, q).messages) ==>
      AllLocallyValid(spec, ViewMessage(spec, m, r).messages)
  {
    if m.role == Tool && HasImage(m.content) {
      var few, many := Select(spec, StripNotices(m.content), r), Select(spec, StripNotices(m.content), q);
      SelectFewer(spec, StripNotices(m.content), r, q);
      ToolViewValidIff(spec, m, r);
      ToolViewValidIff(spec, m, q);
      CountsBound(few.kept);
      CountsBound(many.kept);
    }
  }

  lemma AllValidConcat(spec: ModelSpec, a: seq<Message>, b: seq<Message>)
    ensures AllLocallyValid(spec, a + b) <==> AllLocallyValid(spec, a) && AllLocallyValid(spec, b)
  {
    assert forall m :: m in a + b <==> m in a || m in b;
  }

  /** A view that is locally valid under one image budget stays so under a smaller one. */
  lemma {:induction false} ViewFewer(spec: ModelSpec, ms: seq<Message>, r: nat, q: nat)
    requires r <= q
    ensures View(spec, ms, r).remaining <= View(spec, ms, q).remaining
    ensures AllLocallyValid(spec, View(spec, ms, q).messages) ==> AllLocallyValid(spec, View(spec, ms, r).messages)
  {
    if ms != [] {
      var older, m := ms[..|ms| - 1], ms[|ms| - 1];
      ViewMessageFewer(spec, m, r, q);
      var r', q' := ViewMessage(spec, m, r).remaining, ViewMessage(spec, m, q).remaining;
      ViewFewer(spec, older, r', q');
      AllValidConcat(spec, View(spec, older, r').messages, ViewMessage(spec, m, r).messages);
      AllValidConcat(spec, View(spec, older, q').messages, ViewMessage(spec, m, q).messages);
    }
  }

  /** Local validity of a concatenation, part by part. */
  lemma {:induction false} ViewValidConcat(spec: ModelSpec, a: seq<Message>, b: seq<Message>, budget: nat)
    ensures AllLocallyValid(spec, View(spec, a + b, budget).messages) <==>
      && AllLocallyValid(spec, View(spec, a, View(spec, b, budget).remaining).messages)
      && AllLocallyValid(spec, View(spec, b, budget).messages)
  {
    ViewConcat(spec, a, b, budget);
    AllValidConcat(spec, View(spec, a, View(spec, b, budget).remaining).messages, View(spec, b, budget).messages);
  }

  predicate AllSystem(ms: seq<Message>) {
    forall m :: m in ms ==> m.role == System
  }

  lemma {:induction false} SystemViewed(spec: ModelSpec, ms: seq<Message>, budget: nat)
    requires AllSystem(ms)
    ensures View(spec, ms, budget) == Viewing(ms, budget)
  {
    if ms != [] {
      var older, m := ms[..|ms| - 1], ms[|ms| - 1];
      assert m in ms && forall x :: x in older ==> x in ms;
      SystemViewed(spec, older, budget);
      assert ms == older + [m];
    }
  }

  lemma {:induction false} SystemShown(spec: ModelSpec, ms: seq<Message>, budget: nat, x: Message)
    requires x in ms && x.role == System
    ensures x in View(spec, ms, budget).messages
  {
    var older, m := ms[..|ms| - 1], ms[|ms| - 1];
    assert ms == older + [m];
    if x != m {
      assert x in older;
      SystemShown(spec, older, ViewMessage(spec, m, budget).remaining, x);
    }
  }

  lemma MarkerValid(spec: ModelSpec, n: nat)
    ensures LocallyValid(spec, Marker(n))
  {
    assert Marker(n).content[1..] == [];
  }

  // ----- pruning the oldest units -----

  lemma OldestTail(units: seq<Unit>, removed: seq<bool>, cut: nat)
    requires OldestUpTo(units, removed, cut) && units != [] && cut > 0
    ensures OldestUpTo(units[1..], removed[1..], cut - 1)
  {
    forall i | 0 <= i < |units[1..]| ensures removed[1..][i] <==> units[1..][i].removable && i < cut - 1 {
      assert removed[i + 1] <==> units[i + 1].removable && i + 1 < cut;
    }
  }

  /** Only system messages of `ms[i..p]` and markers. */
  predicate Leftover(ms: seq<Message>, i: nat, p: nat, count: nat, head: seq<Message>) {
    i <= p <= |ms| && AllSystem(head) && forall m :: m in head ==> m == Marker(count) || m in ms[i..p]
  }

  lemma LeftoverBack(ms: seq<Message>, i: nat, p: nat, count: nat, first: seq<Message>, head: seq<Message>)
    requires i < |ms| && Leftover(ms, UnitEnd(ms, i), p, count, head)
    requires first == [] || first == [Marker(count)] || (first == [ms[i]] && ms[i].role == System)
    ensures Leftover(ms, i, p, count, first + head)
  {
    var e := UnitEnd(ms, i);
    assert ms[i..p] == ms[i..e] + ms[e..p];
    assert ms[i] == ms[i..e][0];
    assert forall m :: m in first + head <==> m in first || m in head;
  }

  /** A rebuilt transcript is system messages and markers, then an untouched suffix of the original. */
  lemma {:induction false} OldestLeavesSuffix(
    ms: seq<Message>, i: nat, removed: seq<bool>, cut: nat, inserted: bool, count: nat)
    returns (p: nat, head: seq<Message>)
    requires i <= |ms| && OldestUpTo(UnitsFrom(ms, i), removed, cut)
    ensures Leftover(ms, i, p, count, head)
    ensures RebuildFrom(ms, UnitsFrom(ms, i), removed, inserted, count) == head + ms[p..]
    decreases |ms| - i
  {
    if i == |ms| || cut == 0 {
      p, head := i, [];
      NothingRemoved(ms, i, removed, inserted, count);
    } else {
      var e := UnitEnd(ms, i);
      UnitsStep(ms, i);
      OldestTail(UnitsFrom(ms, i), removed, cut);
      var later;
      p, later := OldestLeavesSuffix(ms, e, removed[1..], cut - 1, inserted || removed[0], count);
      var first := if !removed[0] then [ms[i]] else if inserted then [] else [Marker(count)];
      head := first + later;
      LeftoverBack(ms, i, p, count, first, later);
      Assoc(first, later, ms[p..]);
      assert !removed[0] ==> ms[i..e] == first;
    }
  }

  lemma PrunedViewValid(spec: ModelSpec, ms: seq<Message>, removed: seq<bool>, cut: nat)
    requires AllLocallyValid(spec, FullView(spec, ms))
    requires OldestUpTo(UnitsFrom(ms, 0), removed, cut)
    ensures AllLocallyValid(spec, FullView(spec, Rebuild(ms, UnitsFrom(ms, 0), removed)))
  {
    var count := RemovedCount(UnitsFrom(ms, 0), removed);
    var p, head := OldestLeavesSuffix(ms, 0, removed, cut, false, count);
    assert ms == ms[..p] + ms[p..];
    var left := View(spec, ms[p..], MAX_TOOL_IMAGES).remaining;
    ViewValidConcat(spec, ms[..p], ms[p..], MAX_TOOL_IMAGES);
    ViewValidConcat(spec, head, ms[p..], MAX_TOOL_IMAGES);
    SystemViewed(spec, head, left);
    forall m | m in head ensures LocallyValid(spec, m) {
      if m == Marker(count) {
        MarkerValid(spec, count);
      } else {
        SystemShown(spec, ms[..p], left, m);
      }
    }
  }

  /** Everything validation asks except that the request be nonempty. */
  predicate Acceptable(spec: ModelSpec, ms: seq<Message>) {
    AllLocallyValid(spec, ms) && Paired(ms)
  }

  lemma AcceptableFullView(spec: ModelSpec, ms: seq<Message>)
    requires Paired(ms) && Acceptable(spec, Project(spec, ms))
    ensures Acceptable(spec, FullView(spec, ms))
  {
    ViewKeepsOpen(spec, ms, MAX_TOOL_IMAGES, {});
    if !Changes(spec, ms) {
      forall m | m in ms && m.role == Assistant ensures m.content != [] {
        assert LocallyValid(spec, m);
      }
      FastPathIff(spec, ms);
    }
  }

  lemma RebuildNotEmpty(ms: seq<Message>, i: nat, removed: seq<bool>, count: nat)
    requires i <= |ms| && |removed| == |UnitsFrom(ms, i)| && true in removed
    ensures Marker(count) in RebuildFrom(ms, UnitsFrom(ms, i), removed, false, count)
    decreases |ms| - i
  {
    if i < |ms| {
      UnitsStep(ms, i);
      if !removed[0] {
        assert removed == [removed[0]] + removed[1..];
        RebuildNotEmpty(ms, UnitEnd(ms, i), removed[1..], count);
      }
    }
  }

  /**
   Deleting the oldest removable units of a paired transcript whose view was accepted gives a view that
   is accepted again, exactly unless the rebuilt transcript takes the borrowed fast path while it still
   holds an empty assistant message (which the full rewrite had been dropping).
   */
  lemma PrunedRequestValidIff(spec: ModelSpec, ms: seq<Message>, removed: seq<bool>, cut: nat)
    requires Paired(ms) && Verdict(spec, Project(spec, ms)).None?
    requires OldestUpTo(UnitsFrom(ms, 0), removed, cut)
    ensures
      var rebuilt := Rebuild(ms, UnitsFrom(ms, 0), removed);
      Verdict(spec, Project(spec, rebuilt)).None? <==> Changes(spec, rebuilt) || NoEmptyAssistant(rebuilt)
  {
    var units := UnitsFrom(ms, 0);
    var rebuilt := Rebuild(ms, units, removed);
    ValidIff(spec, Project(spec, ms));
    AcceptableFullView(spec, ms);
    PrunedViewValid(spec, ms, removed, cut);
    assert ms[0..] == ms;
    RebuildPaired(ms, 0, removed, false, RemovedCount(units, removed));
    ViewKeepsOpen(spec, rebuilt, MAX_TOOL_IMAGES, {});
    if true in removed {
      RebuildNotEmpty(ms, 0, removed, RemovedCount(units, removed));
      SystemShown(spec, rebuilt, MAX_TOOL_IMAGES, Marker(RemovedCount(units, removed)));
    } else {
      NothingRemoved(ms, 0, removed, false, RemovedCount(units, removed));
    }
    ValidIff(spec, FullView(spec, rebuilt));
    ValidIff(spec, Project(spec, rebuilt));
    if !Changes(spec, rebuilt) {
      if NoEmptyAssistant(rebuilt) {
        FastPathIff(spec, rebuilt);
      } else {
        var m :| m in rebuilt && m.role == Assistant && m.content == [];
        assert !LocallyValid(spec, m);
      }
    }
  }

  // ----- which transcripts every pruning keeps acceptable -----

  predicate EmptyAssistant(m: Message) {
    m.role == Assistant && m.content == []
  }

  /** Whether some message after position `i` makes the projection rewrite the transcript. */
  predicate RewrittenAfter(spec: ModelSpec, ms: seq<Message>, i: nat) {
    exists j :: i < j < |ms| && Rewritten(spec, ms[j])
  }

  /** Every empty assistant message is followed by one that keeps the rewrite, which drops it, going. */
  predicate EmptiesHidden(spec: ModelSpec, ms: seq<Message>) {
    forall i :: 0 <= i < |ms| && EmptyAssistant(ms[i]) ==> RewrittenAfter(spec, ms, i)
  }

  /** Marks for removal every removable unit before position `cut`. */
  function Oldest(units: seq<Unit>, cut: nat): (r: seq<bool>)
    ensures OldestUpTo(units, r, cut)
  {
    seq(|units|, k requires 0 <= k < |units| => units[k].removable && k < cut)
  }

  lemma OldestRest(units: seq<Unit>, cut: nat)
    requires units != [] && cut > 0
    ensures Oldest(units, cut)[1..] == Oldest(units[1..], cut - 1)
  {}

  /** How many units of `ms[s..]` come before the message at `i`. */
  function UnitsBefore(ms: seq<Message>, s: nat, i: nat): nat
    requires s <= i < |ms| && ms[i].role != Tool
    decreases i - s
  {
    if s == i then 0 else 1 + UnitsBefore(ms, UnitEnd(ms, s), i)
  }

  /** Removing the units before a message that starts one leaves system messages, that message and all that follows. */
  lemma {:induction false} OldestUpToMessage(ms: seq<Message>, s: nat, i: nat, inserted: bool, count: nat)
    returns (head: seq<Message>)
    requires s <= i < |ms| && ms[i].role != Tool
    ensures
      var units := UnitsFrom(ms, s);
      && UnitsBefore(ms, s, i) < |units|
      && units[UnitsBefore(ms, s, i)] == Unit(i, UnitEnd(ms, i), ms[i].role != System)
      && RebuildFrom(ms, units, Oldest(units, UnitsBefore(ms, s, i)), inserted, count) == head + ms[i..]
      && AllSystem(head)
    decreases i - s
  {
    var units, cut := UnitsFrom(ms, s), UnitsBefore(ms, s, i);
    var removed := Oldest(units, cut);
    UnitsStep(ms, s);
    if s == i {
      head := [];
      NothingRemoved(ms, s, removed, inserted, count);
    } else {
      OldestRest(units, cut);
      var later := OldestUpToMessage(ms, UnitEnd(ms, s), i, inserted || removed[0], count);
      head := RemovedHead(ms, s, removed[0], inserted, count, later, ms[i..]);
    }
  }

  /** One more unit in front: a system message stays, anything else leaves at most the marker. */
  lemma RemovedHead(
    ms: seq<Message>, s: nat, gone: bool, inserted: bool, count: nat, later: seq<Message>, tail: seq<Message>)
    returns (head: seq<Message>)
    requires s < |ms| && gone == (ms[s].role != System) && AllSystem(later)
    ensures AllSystem(head)
    ensures head + tail ==
      (if gone then (if inserted then [] else [Marker(count)]) else ms[s..UnitEnd(ms, s)]) + (later + tail)
  {
    var first := if gone then (if inserted then [] else [Marker(count)]) else [ms[s]];
    head := first + later;
    Assoc(first, later, tail);
    assert !gone ==> ms[s..UnitEnd(ms, s)] == [ms[s]];
  }

  lemma NotInHead(head: seq<Message>, tail: seq<Message>, k: nat)
    requires AllSystem(head) && k < |head + tail| && (head + tail)[k].role != System
    ensures |head| <= k && (head + tail)[k] == tail[k - |head|]
  {
    var m := (head + tail)[k];
    assert k < |head| ==> m in head;
  }

  /** A suffix behind system messages has no empty assistant message unless something in it is rewritten. */
  lemma HiddenInSuffix(spec: ModelSpec, ms: seq<Message>, p: nat, head: seq<Message>)
    requires EmptiesHidden(spec, ms) && p <= |ms| && AllSystem(head)
    ensures Changes(spec, head + ms[p..]) || NoEmptyAssistant(head + ms[p..])
    ensures EmptiesHidden(spec, head + ms[p..])
  {
    var rest := head + ms[p..];
    forall k | 0 <= k < |rest| && EmptyAssistant(rest[k]) ensures RewrittenAfter(spec, rest, k) {
      NotInHead(head, ms[p..], k);
      var i := k - |head| + p;
      assert rest[k] == ms[i] && RewrittenAfter(spec, ms, i);
      var j :| i < j < |ms| && Rewritten(spec, ms[j]);
      assert rest[j - p + |head|] == ms[j];
    }
    if m :| m in rest && m.role == Assistant && m.content == [] {
      var k :| 0 <= k < |rest| && rest[k] == m;
      assert EmptyAssistant(rest[k]) && RewrittenAfter(spec, rest, k);
      var j :| k < j < |rest| && Rewritten(spec, rest[j]);
      assert rest[j] in rest;
    }
  }

  /** Cut just before an empty assistant message that nothing rewritten follows, a transcript is refused. */
  lemma ExposedAtCut(spec: ModelSpec, ms: seq<Message>, i: nat, head: seq<Message>)
    requires i < |ms| && EmptyAssistant(ms[i]) && !RewrittenAfter(spec, ms, i) && AllSystem(head)
    requires !Rewritten(spec, ms[i])
    ensures Verdict(spec, Project(spec, head + ms[i..])).Some?
  {
    var rest := head + ms[i..];
    forall m | m in rest ensures !Rewritten(spec, m) {
      if m !in head {
        var k :| 0 <= k < |ms[i..]| && ms[i..][k] == m;
        assert ms[i + k] == m;
      }
    }
    assert ms[i..][0] == ms[i] && ms[i] in rest;
    assert !LocallyValid(spec, ms[i]);
    ValidIff(spec, rest);
  }

  ghost predicate OldestRemovalsAccepted(spec: ModelSpec, ms: seq<Message>) {
    forall removed, cut: nat :: OldestUpTo(UnitsFrom(ms, 0), removed, cut) ==>
      Verdict(spec, Project(spec, Rebuild(ms, UnitsFrom(ms, 0), removed))).None?
  }

  /**
   Deleting the oldest removable units of an accepted transcript, however many, leaves it accepted exactly when
   every empty assistant message is followed by a message that the projection rewrites.
   */
  lemma OldestRemovalsSafeIff(spec: ModelSpec, ms: seq<Message>)
    requires Paired(ms) && Verdict(spec, Project(spec, ms)).None?
    ensures OldestRemovalsAccepted(spec, ms) <==> EmptiesHidden(spec, ms)
  {
    var units := UnitsFrom(ms, 0);
    if EmptiesHidden(spec, ms) {
      forall removed, cut: nat | OldestUpTo(units, removed, cut)
        ensures Verdict(spec, Project(spec, Rebuild(ms, units, removed))).None?
      {
        var p, head := OldestLeavesSuffix(ms, 0, removed, cut, false, RemovedCount(units, removed));
        HiddenInSuffix(spec, ms, p, head);
        PrunedRequestValidIff(spec, ms, removed, cut);
      }
    }
    if OldestRemovalsAccepted(spec, ms) {
      forall i | 0 <= i < |ms| && EmptyAssistant(ms[i]) ensures RewrittenAfter(spec, ms, i) {
        if !RewrittenAfter(spec, ms, i) {
          var removed := ExposedByRemoval(spec, ms, i);
        }
      }
    }
  }

  lemma ExposedByRemoval(spec: ModelSpec, ms: seq<Message>, i: nat) returns (removed: seq<bool>)
    requires i < |ms| && EmptyAssistant(ms[i]) && !RewrittenAfter(spec, ms, i)
    ensures removed == Oldest(UnitsFrom(ms, 0), UnitsBefore(ms, 0, i))
    ensures Verdict(spec, Project(spec, Rebuild(ms, UnitsFrom(ms, 0), removed))).Some?
  {
    removed := Oldest(UnitsFrom(ms, 0), UnitsBefore(ms, 0, i));
    var head := OldestUpToMessage(ms, 0, i, false, RemovedCount(UnitsFrom(ms, 0), removed));
    assert Rebuild(ms, UnitsFrom(ms, 0), removed) == head + ms[i..];
    ExposedAtCut(spec, ms, i, head);
  }

  /** Counted pruning, end to end: it keeps an accepted transcript without an exposed empty message that way. */
  lemma PruningKeepsRequestsValid(spec: ModelSpec, m: Measure, preserve: nat, ms: seq<Message>)
    requires Paired(ms) && Verdict(spec, Project(spec, ms)).None? && EmptiesHidden(spec, ms)
    requires Prune(m, preserve, ms).Ok?
    ensures
      var pruned := Prune(m, preserve, ms).value.messages;
      Paired(pruned) && Verdict(spec, Project(spec, pruned)).None? && EmptiesHidden(spec, pruned)
  {
    var removed, cut := PruneKeepsSuffix(m, preserve, ms);
    var units := UnitsFrom(ms, 0);
    var count := RemovedCount(units, removed);
    assert ms[0..] == ms;
    RebuildPaired(ms, 0, removed, false, count);
    var p, head := OldestLeavesSuffix(ms, 0, removed, cut, false, count);
    HiddenInSuffix(spec, ms, p, head);
    PrunedRequestValidIff(spec, ms, removed, cut);
  }

  /**
   What is sent after pruning: the pruned context, projected, with its tool images resolved. Whatever the resolver
   answers, validation accepts it, and its tool images are inline and decode to at most one MiB together.
   */
  lemma SentAfterPruning(spec: ModelSpec, m: Measure, preserve: nat, ms: seq<Message>, world: Previews.World)
    requires Paired(ms) && Verdict(spec, Project(spec, ms)).None? && EmptiesHidden(spec, ms)
    requires Prune(m, preserve, ms).Ok?
    ensures
      var sent := Previews.Materialized(world, 0, Project(spec, Prune(m, preserve, ms).value.messages));
      && Verdict(spec, sent).None?
      && (forall image :: image in ToolImages(sent) ==> Previews.Inline(image))
      && Previews.TotalBytes(ToolImages(sent)) <= 1024 * 1024
  {
    var pruned := Prune(m, preserve, ms).value.messages;
    PruningKeepsRequestsValid(spec, m, preserve, ms);
    Previews.MaterializedViewValidates(spec, world, Project(spec, pruned));
    Previews.DecodedBytesBounded(spec, world, pruned);
  }

  lemma TwoUnits(a: Message, b: Message)
    requires a.role != Assistant && b.content == []
    ensures UnitsFrom([a, b], 0) == [Unit(0, 1, a.role != System), Unit(1, 2, b.role != System)]
    ensures Rebuild([a, b], UnitsFrom([a, b], 0), [true, false]) == [Marker(1), b]
  {
    var ms := [a, b];
    assert UnitsFrom(ms, 2) == [];
    assert UnitsFrom(ms, 1) == [Unit(1, 2, b.role != System)];
    var units, removed := UnitsFrom(ms, 0), [true, false];
    assert units[1..] == [Unit(1, 2, b.role != System)] && removed[1..] == [false];
    assert units[1..][1..] == [] && removed[1..][1..] == [];
    assert Slice(ms, units[1]) == [b];
    assert RemovedCount(units[1..], removed[1..]) == 0;
    assert RemovedCount(units, removed) == 1;
    assert RebuildFrom(ms, units[1..], removed[1..], true, 1) == [b];
  }

  /** The full rewrite leaves out an assistant message without content. */
  lemma EmptyMessageHidden(spec: ModelSpec, c: Message, e: Message)
    requires !spec.reasoningHistory && c.role == Custom && e == Message(Assistant, [])
    ensures Project(spec, [c, e]) == [c.(role := User)]
  {
    assert Rewritten(spec, c) && c in [c, e];
    assert [c, e] == [c] + [e];
    ViewSingle(spec, e, 4);
    ViewSingle(spec, c, 4);
    ViewConcat(spec, [c], [e], 4);
  }

  /** The escape is real: dropping the one custom message switches to the fast path and exposes an empty message. */
  lemma FastPathExposesEmptyMessage()
    ensures
      var spec := ModelSpec("p", true, true, false, None, None);
      var ms := [Message(Custom, [Text("c")]), Message(Assistant, [])];
      var rebuilt := Rebuild(ms, UnitsFrom(ms, 0), [true, false]);
      && Paired(ms) && Verdict(spec, Project(spec, ms)).None?
      && OldestUpTo(UnitsFrom(ms, 0), [true, false], 1)
      && Verdict(spec, Project(spec, rebuilt)).Some?
  {
    var spec := ModelSpec("p", true, true, false, None, None);
    var c, e := Message(Custom, [Text("c")]), Message(Assistant, []);
    var ms, seen := [c, e], c.(role := User);
    TwoUnits(c, e);
    var rebuilt := Rebuild(ms, UnitsFrom(ms, 0), [true, false]);
    EmptyMessageHidden(spec, c, e);
    assert seen.content[1..] == [] && c.content[1..] == [];
    SilentPaired(c);
    SilentPaired(e);
    SilentPaired(seen);
    assert ms == [c] + [e];
    PairedConcat([c], [e]);
    assert AllLocallyValid(spec, [seen]);
    ValidIff(spec, [seen]);
    assert !Changes(spec, rebuilt);
    assert e in rebuilt && !LocallyValid(spec, e);
    ValidIff(spec, rebuilt);
  }
}
