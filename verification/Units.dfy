/** Message units, the pieces of history that pruning may delete, and the rebuilt transcript. */
module Units {
  import opened Wrappers
  import opened Transcript

  /** A half-open range of messages kept or deleted together; system messages are never removable. */
  datatype Unit = Unit(start: nat, end: nat, removable: bool)

  predicate HasCalls(m: Message) {
    exists b :: b in m.content && b.ToolCall?
  }

  function SkipTools(ms: seq<Message>, i: nat): (r: nat)
    requires i <= |ms|
    ensures i <= r <= |ms|
    ensures forall k :: i <= k < r ==> ms[k].role == Tool
    ensures r < |ms| ==> ms[r].role != Tool
    decreases |ms| - i
  {
    if i < |ms| && ms[i].role == Tool then SkipTools(ms, i + 1) else i
  }

  function UnitEnd(ms: seq<Message>, i: nat): (r: nat)
    requires i < |ms|
    ensures i < r <= |ms|
  {
    if ms[i].role == Assistant && HasCalls(ms[i]) then SkipTools(ms, i + 1) else i + 1
  }

  /** The units of `ms[i..]`: a calling assistant message owns the tool messages after it. */
  function UnitsFrom(ms: seq<Message>, i: nat): seq<Unit>
    requires i <= |ms|
    decreases |ms| - i
  {
    if i == |ms| then []
    else [Unit(i, UnitEnd(ms, i), ms[i].role != System)] + UnitsFrom(ms, UnitEnd(ms, i))
  }

  lemma UnitsUnfold(ms: seq<Message>, i: nat)
    requires i < |ms|
    ensures UnitsFrom(ms, i) == [Unit(i, UnitEnd(ms, i), ms[i].role != System)] + UnitsFrom(ms, UnitEnd(ms, i))
  {}

  method MessageUnits(messages: seq<Message>) returns (units: seq<Unit>)
    ensures units == UnitsFrom(messages, 0)
  {
    units := [];
    var index := 0;
    ghost var all := UnitsFrom(messages, 0);
    while index < |messages|
      invariant index <= |messages|
      invariant all == units + UnitsFrom(messages, index)
    {
      var start := index;
      var removable := messages[index].role != System;
      UnitsUnfold(messages, start);
      index := index + 1;
      if messages[start].role == Assistant && HasCalls(messages[start]) {
        while index < |messages| && messages[index].role == Tool
          invariant start < index <= |messages|
          invariant SkipTools(messages, start + 1) == SkipTools(messages, index)
        {
          index := index + 1;
        }
      }
      Assoc(units, [Unit(start, index, removable)], UnitsFrom(messages, index));
      units := units + [Unit(start, index, removable)];
    }
  }

  function Slice(ms: seq<Message>, u: Unit): seq<Message> {
    if u.start <= u.end <= |ms| then ms[u.start..u.end] else []
  }

  // ----- the marker that stands for what was removed -----

  function Digit(d: nat): char
    requires d < 10
  {
    ('0' as int + d) as char
  }

  function Decimal(n: nat): string {
    if n < 10 then [Digit(n)] else Decimal(n / 10) + [Digit(n % 10)]
  }

  /** The system message that replaces what was removed; of its fixed sentence only the number matters. */
  function Marker(removed: nat): Message {
    Message(System, [Text(Decimal(removed))])
  }

  function RemovedCount(units: seq<Unit>, removed: seq<bool>): nat
    requires |units| == |removed|
  {
    if units == [] then 0
    else (if removed[0] then SatSub(units[0].end, units[0].start) else 0) + RemovedCount(units[1..], removed[1..])
  }

  /** Kept units in order, with one marker in the place of the first removed unit. */
  function RebuildFrom(ms: seq<Message>, units: seq<Unit>, removed: seq<bool>, inserted: bool, count: nat): seq<Message>
    requires |units| == |removed|
  {
    if units == [] then []
    else if removed[0] then
      (if inserted then [] else [Marker(count)]) + RebuildFrom(ms, units[1..], removed[1..], true, count)
    else Slice(ms, units[0]) + RebuildFrom(ms, units[1..], removed[1..], inserted, count)
  }

  function Rebuild(ms: seq<Message>, units: seq<Unit>, removed: seq<bool>): seq<Message>
    requires |units| == |removed|
  {
    RebuildFrom(ms, units, removed, false, RemovedCount(units, removed))
  }

  lemma RebuildStep(ms: seq<Message>, units: seq<Unit>, removed: seq<bool>, inserted: bool, count: nat, i: nat)
    requires |units| == |removed| && i < |units|
    ensures RebuildFrom(ms, units[i..], removed[i..], inserted, count)
      == (if !removed[i] then Slice(ms, units[i]) else if inserted then [] else [Marker(count)])
         + RebuildFrom(ms, units[i + 1..], removed[i + 1..], inserted || removed[i], count)
  {
    assert units[i..][1..] == units[i + 1..] && removed[i..][1..] == removed[i + 1..];
  }

  method RebuildMessages(original: seq<Message>, units: seq<Unit>, removed: seq<bool>) returns (messages: seq<Message>)
    requires |units| == |removed|
    ensures messages == Rebuild(original, units, removed)
  {
    var removedMessages := RemovedCount(units, removed);
    messages := [];
    var markerInserted := false;
    ghost var all := Rebuild(original, units, removed);
    assert units[0..] == units && removed[0..] == removed;
    for i := 0 to |units|
      invariant all == messages + RebuildFrom(original, units[i..], removed[i..], markerInserted, removedMessages)
    {
      RebuildStep(original, units, removed, markerInserted, removedMessages, i);
      ghost var inserted := markerInserted || removed[i];
      ghost var rest := RebuildFrom(original, units[i + 1..], removed[i + 1..], inserted, removedMessages);
      var piece := [];
      if removed[i] {
        if !markerInserted {
          markerInserted := true;
          piece := [Marker(removedMessages)];
        }
      } else {
        piece := Slice(original, units[i]);
      }
      Assoc(messages, piece, rest);
      messages := messages + piece;
    }
    assert units[|units|..] == [] && removed[|units|..] == [];
  }

  // ----- units respect the call/result discipline -----

  /** The units of the tail of a transcript, and the fact that they tile it. */
  lemma {:induction false} UnitsStep(ms: seq<Message>, i: nat)
    requires i < |ms|
    ensures var us := UnitsFrom(ms, i);
      && us[0] == Unit(i, UnitEnd(ms, i), ms[i].role != System)
      && us[1..] == UnitsFrom(ms, UnitEnd(ms, i))
      && Slice(ms, us[0]) == ms[i..UnitEnd(ms, i)]
      && ms[i..] == Slice(ms, us[0]) + ms[UnitEnd(ms, i)..]
  {
    UnitsUnfold(ms, i);
    CutAgain(ms, i, UnitEnd(ms, i));
  }

  lemma CutAgain(ms: seq<Message>, i: nat, e: nat)
    requires i <= e <= |ms|
    ensures ms[i..] == ms[i..e] + ms[e..]
  {}

  lemma {:induction false} NoCallsNoAsks(bs: seq<Block>)
    requires forall b :: b in bs ==> !b.ToolCall?
    ensures OnlyAnswers(Marks(bs))
  {
    if bs != [] {
      assert forall b :: b in bs[1..] ==> b in bs;
      NoCallsNoAsks(bs[1..]);
      assert bs[0] in bs;
    }
  }

  /** After one whole unit of a paired transcript no call is open. */
  lemma UnitPaired(ms: seq<Message>, i: nat)
    requires i < |ms| && Paired(ms[i..])
    ensures Paired(ms[i..UnitEnd(ms, i)]) && Paired(ms[UnitEnd(ms, i)..])
  {
    var e := UnitEnd(ms, i);
    assert ms[i..] == ms[i..e] + ms[e..];
    OpenConcat({}, ms[i..e], ms[e..]);
    var p := Open({}, ms[i..e]).value;
    if e < |ms| && ms[i].role == Assistant && HasCalls(ms[i]) {
      assert ms[e..][0] == ms[e];
    } else if !(ms[i].role == Assistant && HasCalls(ms[i])) {
      assert ms[i..e] == [ms[i]];
      LoneMessageOpensNothing(ms[i]);
    }
  }

  lemma LoneMessageOpensNothing(m: Message)
    requires Open({}, [m]).Some?
    requires m.role == Assistant ==> !HasCalls(m)
    ensures Open({}, [m]) == Some({})
  {
    assert [m][1..] == [];
    var marks := Marks(m.content);
    if m.role == Assistant {
      assert marks != [] ==> marks[0] in marks;
      NoCallsNoAsks(m.content);
    }
  }

  /** Any choice of whole units, with the marker, is paired again. */
  lemma {:induction false} RebuildPaired(ms: seq<Message>, i: nat, removed: seq<bool>, inserted: bool, count: nat)
    requires i <= |ms| && |removed| == |UnitsFrom(ms, i)|
    requires Paired(ms[i..])
    ensures Paired(RebuildFrom(ms, UnitsFrom(ms, i), removed, inserted, count))
    decreases |ms| - i
  {
    if i < |ms| {
      UnitsStep(ms, i);
      UnitPaired(ms, i);
      var e := UnitEnd(ms, i);
      if removed[0] {
        var rest := RebuildFrom(ms, UnitsFrom(ms, e), removed[1..], true, count);
        RebuildPaired(ms, e, removed[1..], true, count);
        SilentPaired(Marker(count));
        PairedConcat([Marker(count)], rest);
        assert [] + rest == rest;
      } else {
        RebuildPaired(ms, e, removed[1..], inserted, count);
        PairedConcat(ms[i..e], RebuildFrom(ms, UnitsFrom(ms, e), removed[1..], inserted, count));
      }
    }
  }

  /** Only removable units are marked for removal. */
  predicate Allowed(units: seq<Unit>, removed: seq<bool>) {
    && |units| == |removed|
    && forall i :: 0 <= i < |units| && removed[i] ==> units[i].removable
  }

  /** The removable units marked are exactly those before a cut: the oldest ones. */
  predicate OldestUpTo(units: seq<Unit>, removed: seq<bool>, cut: nat) {
    && |units| == |removed|
    && forall i :: 0 <= i < |units| ==> (removed[i] <==> units[i].removable && i < cut)
  }

  lemma {:induction false} NothingRemoved(ms: seq<Message>, i: nat, removed: seq<bool>, inserted: bool, count: nat)
    requires i <= |ms| && |removed| == |UnitsFrom(ms, i)|
    requires forall k :: 0 <= k < |removed| ==> !removed[k]
    ensures RebuildFrom(ms, UnitsFrom(ms, i), removed, inserted, count) == ms[i..]
    decreases |ms| - i
  {
    if i < |ms| {
      UnitsStep(ms, i);
      NothingRemoved(ms, UnitEnd(ms, i), removed[1..], inserted, count);
    }
  }

  /** A rebuilt transcript holds nothing but messages of the original and the marker. */
  lemma {:induction false} RebuildMembers(ms: seq<Message>, i: nat, removed: seq<bool>, inserted: bool, count: nat)
    requires i <= |ms| && |removed| == |UnitsFrom(ms, i)|
    ensures forall x ::
      x in RebuildFrom(ms, UnitsFrom(ms, i), removed, inserted, count) ==> x in ms || x == Marker(count)
    decreases |ms| - i
  {
    if i < |ms| {
      UnitsStep(ms, i);
      RebuildMembers(ms, UnitEnd(ms, i), removed[1..], inserted || removed[0], count);
    }
  }

  // ----- system messages -----

  function SystemMessages(ms: seq<Message>): seq<Message> {
    if ms == [] then []
    else if ms[0].role == System then [ms[0]] + SystemMessages(ms[1..])
    else SystemMessages(ms[1..])
  }

  lemma {:induction false} SystemConcat(a: seq<Message>, b: seq<Message>)
    ensures SystemMessages(a + b) == SystemMessages(a) + SystemMessages(b)
    decreases a
  {
    if a == [] {
      assert a + b == b;
    } else {
      SystemConcat(a[1..], b);
      assert (a + b)[0] == a[0] && (a + b)[1..] == a[1..] + b;
      if a[0].role == System {
        Assoc([a[0]], SystemMessages(a[1..]), SystemMessages(b));
      }
    }
  }

  lemma {:induction false} NoSystem(ms: seq<Message>)
    requires forall m :: m in ms ==> m.role != System
    ensures SystemMessages(ms) == []
  {
    if ms != [] {
      assert ms[0] in ms;
      assert forall m :: m in ms[1..] ==> m in ms;
      NoSystem(ms[1..]);
    }
  }

  lemma UnitSystem(ms: seq<Message>, i: nat)
    requires i < |ms|
    ensures SystemMessages(ms[i..UnitEnd(ms, i)]) == if ms[i].role == System then [ms[i]] else []
  {
    var e := UnitEnd(ms, i);
    var u := ms[i..e];
    if ms[i].role == System {
      assert u == [ms[i]] && u[1..] == [];
    } else {
      forall m | m in u ensures m.role != System {
        var k :| 0 <= k < |u| && u[k] == m;
        assert u[k] == ms[i + k];
      }
      NoSystem(u);
    }
  }

  lemma AllowedTail(units: seq<Unit>, removed: seq<bool>)
    requires Allowed(units, removed) && units != []
    ensures Allowed(units[1..], removed[1..])
    ensures removed[0] ==> units[0].removable
    ensures true in removed <==> removed[0] || true in removed[1..]
  {
    forall k | 0 <= k < |removed[1..]| && removed[1..][k] ensures units[1..][k].removable {
      assert removed[k + 1] && units[k + 1].removable;
    }
    assert removed == [removed[0]] + removed[1..];
  }

  function WithMarker(all: seq<Message>, at: nat, count: nat): seq<Message>
    requires at <= |all|
  {
    all[..at] + [Marker(count)] + all[at..]
  }

  lemma SystemOfUnit(ms: seq<Message>, i: nat)
    requires i < |ms|
    ensures SystemMessages(ms[i..]) == SystemMessages(ms[i..UnitEnd(ms, i)]) + SystemMessages(ms[UnitEnd(ms, i)..])
    ensures ms[i].role != System ==> SystemMessages(ms[i..UnitEnd(ms, i)]) == []
  {
    UnitSystem(ms, i);
    SystemConcat(ms[i..UnitEnd(ms, i)], ms[UnitEnd(ms, i)..]);
    assert ms[i..] == ms[i..UnitEnd(ms, i)] + ms[UnitEnd(ms, i)..];
  }

  lemma SystemOfMarker(count: nat)
    ensures SystemMessages([Marker(count)]) == [Marker(count)]
  {
    assert [Marker(count)][1..] == [];
  }

  lemma WithMarkerLater(here: seq<Message>, later: seq<Message>, at: nat, count: nat)
    requires at <= |later|
    ensures WithMarker(here + later, at + |here|, count) == here + WithMarker(later, at, count)
  {
    assert (here + later)[..at + |here|] == here + later[..at];
  }

  /** `kept` is `all` with the marker somewhere in it, or exactly `all` when no marker is due. */
  predicate Marked(kept: seq<Message>, all: seq<Message>, due: bool, at: nat, count: nat) {
    at <= |all| && kept == if due then WithMarker(all, at, count) else all
  }

  lemma SystemBehindUnit(here: seq<Message>, kept: seq<Message>, later: seq<Message>, due: bool, at: nat, count: nat)
    requires Marked(kept, later, due, at, count)
    ensures Marked(here + kept, here + later, due, at + |here|, count)
  {
    WithMarkerLater(here, later, at, count);
  }

  lemma SystemBehindMarker(rest: seq<Message>, later: seq<Message>, inserted: bool, count: nat)
    requires SystemMessages(rest) == later
    ensures Marked(SystemMessages((if inserted then [] else [Marker(count)]) + rest), later, !inserted, 0, count)
  {
    SystemConcat(if inserted then [] else [Marker(count)], rest);
    SystemOfMarker(count);
  }

  /** The system messages of what is rebuilt from `ms[i..]`, and those of `ms[i..]`, with the marker at `at`. */
  predicate SystemKept(ms: seq<Message>, i: nat, removed: seq<bool>, inserted: bool, count: nat, at: nat)
    requires i <= |ms| && |removed| == |UnitsFrom(ms, i)|
  {
    Marked(SystemMessages(RebuildFrom(ms, UnitsFrom(ms, i), removed, inserted, count)), SystemMessages(ms[i..]),
           !inserted && true in removed, at, count)
  }

  lemma SystemKeptRemoved(ms: seq<Message>, i: nat, removed: seq<bool>, inserted: bool, count: nat, after: nat)
    requires i < |ms| && Allowed(UnitsFrom(ms, i), removed) && removed[0]
    requires SystemKept(ms, UnitEnd(ms, i), removed[1..], true, count, after)
    ensures SystemKept(ms, i, removed, inserted, count, 0)
  {
    var e := UnitEnd(ms, i);
    var rest := RebuildFrom(ms, UnitsFrom(ms, e), removed[1..], true, count);
    AllowedTail(UnitsFrom(ms, i), removed);
    SystemOfUnit(ms, i);
    SystemBehindMarker(rest, SystemMessages(ms[e..]), inserted, count);
  }

  lemma SystemKeptUnit(ms: seq<Message>, i: nat, removed: seq<bool>, inserted: bool, count: nat, after: nat)
    requires i < |ms| && Allowed(UnitsFrom(ms, i), removed) && !removed[0]
    requires SystemKept(ms, UnitEnd(ms, i), removed[1..], inserted, count, after)
    ensures SystemKept(ms, i, removed, inserted, count, after + |SystemMessages(ms[i..UnitEnd(ms, i)])|)
  {
    var e := UnitEnd(ms, i);
    var rest := RebuildFrom(ms, UnitsFrom(ms, e), removed[1..], inserted, count);
    AllowedTail(UnitsFrom(ms, i), removed);
    SystemOfUnit(ms, i);
    SystemConcat(ms[i..e], rest);
    SystemBehindUnit(SystemMessages(ms[i..e]), SystemMessages(rest), SystemMessages(ms[e..]),
                     !inserted && true in removed[1..], after, count);
  }

  /** Where, among the system messages, the marker stands. */
  lemma {:induction false} RebuildSystem(ms: seq<Message>, i: nat, removed: seq<bool>, inserted: bool, count: nat)
    returns (at: nat)
    requires i <= |ms| && Allowed(UnitsFrom(ms, i), removed)
    ensures SystemKept(ms, i, removed, inserted, count, at)
    decreases |ms| - i
  {
    if i == |ms| {
      at := 0;
    } else {
      UnitsStep(ms, i);
      AllowedTail(UnitsFrom(ms, i), removed);
      var after := RebuildSystem(ms, UnitEnd(ms, i), removed[1..], inserted || removed[0], count);
      at := SystemKeptStep(ms, i, removed, inserted, count, after);
    }
  }

  lemma SystemKeptStep(ms: seq<Message>, i: nat, removed: seq<bool>, inserted: bool, count: nat, after: nat)
    returns (at: nat)
    requires i < |ms| && Allowed(UnitsFrom(ms, i), removed)
    requires |removed[1..]| == |UnitsFrom(ms, UnitEnd(ms, i))|
    requires SystemKept(ms, UnitEnd(ms, i), removed[1..], inserted || removed[0], count, after)
    ensures SystemKept(ms, i, removed, inserted, count, at)
  {
    if removed[0] {
      at := 0;
      SystemKeptRemoved(ms, i, removed, inserted, count, after);
    } else {
      at := after + |SystemMessages(ms[i..UnitEnd(ms, i)])|;
      SystemKeptUnit(ms, i, removed, inserted, count, after);
    }
  }

  /** System messages in front stay in front: nothing is removed or inserted before the first removable unit. */
  lemma {:induction false} RebuildHead(
    ms: seq<Message>, i: nat, removed: seq<bool>, inserted: bool, count: nat, head: nat)
    requires i <= head <= |ms| && Allowed(UnitsFrom(ms, i), removed)
    requires forall k :: i <= k < head ==> ms[k].role == System
    ensures ms[i..head] <= RebuildFrom(ms, UnitsFrom(ms, i), removed, inserted, count)
    decreases |ms| - i
  {
    if i < head {
      UnitsStep(ms, i);
      AllowedTail(UnitsFrom(ms, i), removed);
      RebuildHead(ms, i + 1, removed[1..], inserted, count, head);
      assert ms[i..head] == [ms[i]] + ms[i + 1..head];
    }
  }

  /** Rebuilding keeps every system message in order and adds exactly one, the marker. */
  lemma SystemMessagesKept(ms: seq<Message>, removed: seq<bool>) returns (at: nat)
    requires Allowed(UnitsFrom(ms, 0), removed)
    ensures Marked(SystemMessages(Rebuild(ms, UnitsFrom(ms, 0), removed)), SystemMessages(ms),
                   true in removed, at, RemovedCount(UnitsFrom(ms, 0), removed))
  {
    assert ms[0..] == ms;
    at := RebuildSystem(ms, 0, removed, false, RemovedCount(UnitsFrom(ms, 0), removed));
  }

  // ----- units tile the transcript -----

  /** A calling assistant message with all tool messages that follow it, or any other message alone. */
  ghost predicate Shape(ms: seq<Message>, u: Unit) {
    && u.start < u.end <= |ms|
    && (u.removable <==> ms[u.start].role != System)
    && if ms[u.start].role == Assistant && exists b <- ms[u.start].content :: b.ToolCall? then
         && (forall k :: u.start < k < u.end ==> ms[k].role == Tool)
         && (u.end < |ms| ==> ms[u.end].role != Tool)
       else u.end == u.start + 1
  }

  lemma ShapeOfFirst(ms: seq<Message>, i: nat)
    requires i < |ms|
    ensures Shape(ms, Unit(i, UnitEnd(ms, i), ms[i].role != System))
  {
    assert HasCalls(ms[i]) <==> exists b <- ms[i].content :: b.ToolCall?;
  }

  /** The units follow one another without a gap, from the first message to the last. */
  lemma {:induction false} UnitsTile(ms: seq<Message>, i: nat)
    requires i <= |ms|
    ensures
      var us := UnitsFrom(ms, i);
      && (forall k :: 0 <= k < |us| ==> Shape(ms, us[k]))
      && (us == [] <==> i == |ms|)
      && (us != [] ==> us[0].start == i && us[|us| - 1].end == |ms|)
      && forall k :: 0 <= k < |us| - 1 ==> us[k].end == us[k + 1].start
    decreases |ms| - i
  {
    if i < |ms| {
      UnitsStep(ms, i);
      ShapeOfFirst(ms, i);
      UnitsTile(ms, UnitEnd(ms, i));
      var us, rest := UnitsFrom(ms, i), UnitsFrom(ms, UnitEnd(ms, i));
      assert forall k :: 0 < k < |us| ==> us[k] == rest[k - 1];
    }
  }

  // ----- the marker's number -----

  function DigitsRead(digits: string): nat {
    if digits == [] then 0
    else
      var last := digits[|digits| - 1];
      10 * DigitsRead(digits[..|digits| - 1]) + if '0' <= last <= '9' then (last - '0') as nat else 0
  }

  /** The number in the marker is written in decimal. */
  lemma {:induction false} DecimalReads(n: nat)
    ensures DigitsRead(Decimal(n)) == n && Decimal(n) != []
    ensures forall c :: c in Decimal(n) ==> '0' <= c <= '9'
    decreases n
  {
    var s := Decimal(n);
    if n < 10 {
      assert s[..0] == [];
    } else {
      DecimalReads(n / 10);
      assert s[..|s| - 1] == Decimal(n / 10);
    }
  }
}
