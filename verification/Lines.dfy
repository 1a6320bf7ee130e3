/** The line reader over a nonblocking descriptor. */
module Lines {
  import opened Wrappers
  import Utf8

  type byte = Utf8.byte

  const MAX_INPUT: nat := 1024 * 1024
  const READ_SIZE: nat := 4096
  const NEWLINE: byte := 10

  /** What one read returns; a script that has run out returns end of file for ever. */
  datatype Read = Chunk(bytes: seq<byte>) | WouldBlock | Retry | Fault

  datatype LineError = TooLong | NotUtf8 | Io

  type Line = Result<Option<seq<byte>>, LineError>

  function Stream(script: seq<Read>): seq<byte> {
    if script == [] then [] else (if script[0].Chunk? then script[0].bytes else []) + Stream(script[1..])
  }

  function Faults(script: seq<Read>): nat {
    if script == [] then 0 else (if script[0].Fault? then 1 else 0) + Faults(script[1..])
  }

  /** Each chunk contributes its own bytes once, in the order of the reads, and nothing else does. */
  lemma {:induction false} StreamConcat(a: seq<Read>, b: seq<Read>)
    ensures Stream(a + b) == Stream(a) + Stream(b) && Faults(a + b) == Faults(a) + Faults(b)
    ensures forall bytes :: Stream([Chunk(bytes)]) == bytes && Faults([Chunk(bytes)]) == 0
    ensures Stream([WouldBlock]) == Stream([Retry]) == Stream([Fault]) == Stream([]) == []
    ensures Faults([WouldBlock]) == Faults([Retry]) == Faults([]) == 0 && Faults([Fault]) == 1
    decreases a
  {
    if a == [] {
      assert a + b == b;
    } else {
      StreamConcat(a[1..], b);
      assert (a + b)[0] == a[0] && (a + b)[1..] == a[1..] + b;
      Assoc(if a[0].Chunk? then a[0].bytes else [], Stream(a[1..]), Stream(b));
    }
    forall bytes ensures Stream([Chunk(bytes)]) == bytes && Faults([Chunk(bytes)]) == 0 {
      assert [Chunk(bytes)][1..] == [];
    }
    assert [WouldBlock][1..] == [] && [Retry][1..] == [] && [Fault][1..] == [];
  }

  /** The position of the first newline, or the length. */
  function EndOfLine(s: seq<byte>): (e: nat)
    ensures e <= |s|
    ensures forall i :: 0 <= i < e ==> s[i] != NEWLINE
    ensures e < |s| ==> s[e] == NEWLINE
  {
    if s == [] || s[0] == NEWLINE then 0 else 1 + EndOfLine(s[1..])
  }

  /** Where the next line is cut, before its encoding is judged. */
  datatype Cut = Over | Whole(line: seq<byte>) | End

  /** The cut one call makes, as a function of every byte still to come, and the bytes left after it. */
  function CutOf(s: seq<byte>): (Cut, seq<byte>) {
    CutAt(s, EndOfLine(s))
  }

  function CutAt(s: seq<byte>, e: nat): (Cut, seq<byte>) {
    if e < |s| then if e >= MAX_INPUT then (Over, s) else (Whole(s[..e + 1]), s[e + 1..])
    else if |s| > MAX_INPUT then (Over, s)
    else if s == [] then (End, [])
    else (Whole(s), [])
  }

  function Judge(cut: Cut): Line {
    match cut
    case Over => Err(TooLong)
    case Whole(line) => if Utf8.Valid(line) then Ok(Some(line)) else Err(NotUtf8)
    case End => Ok(None)
  }

  /** The answer to one call and the bytes left after it. */
  function NextOf(s: seq<byte>): (Line, seq<byte>) {
    (Judge(CutOf(s).0), CutOf(s).1)
  }

  /** A line: nonempty, at most one MiB, with no newline before its last byte, ended by a newline or by the input. */
  predicate FirstLine(text: seq<byte>, s: seq<byte>) {
    && text != [] && |text| <= MAX_INPUT && text <= s
    && (forall i :: 0 <= i < |text| - 1 ==> text[i] != NEWLINE)
    && (text == s || text[|text| - 1] == NEWLINE)
  }

  /** What one call answers and leaves, told by the bytes still to come. */
  lemma NextExact(s: seq<byte>)
    ensures
      var (line, rest) := NextOf(s);
      && (line == Ok(None) <==> s == [])
      && (line == Err(TooLong) <==> |s| > MAX_INPUT && forall i :: 0 <= i < MAX_INPUT ==> s[i] != NEWLINE)
      && (forall text :: line == Ok(Some(text)) <==> FirstLine(text, s) && Utf8.Valid(text))
      && (line == Err(NotUtf8) <==> exists text :: FirstLine(text, s) && !Utf8.Valid(text))
      && (forall text :: FirstLine(text, s) ==> text + rest == s)
      && (line == Ok(None) || line == Err(TooLong) ==> rest == s)
      && line != Err(Io)
  {
    var e := EndOfLine(s);
    var (line, rest) := NextOf(s);
    if e < |s| && e < MAX_INPUT {
      LineTold(s, s[..e + 1], line, rest);
    } else if s != [] && e == |s| <= MAX_INPUT {
      LineTold(s, s, line, rest);
    } else {
      NoLine(s);
    }
  }

  lemma LineTold(s: seq<byte>, first: seq<byte>, line: Line, rest: seq<byte>)
    requires FirstLine(first, s) && rest == s[|first|..]
    requires line == if Utf8.Valid(first) then Ok(Some(first)) else Err(NotUtf8)
    ensures forall text :: line == Ok(Some(text)) <==> FirstLine(text, s) && Utf8.Valid(text)
    ensures line == Err(NotUtf8) <==> exists text :: FirstLine(text, s) && !Utf8.Valid(text)
    ensures forall text :: FirstLine(text, s) ==> text + rest == s
  {
    OneLine(s, first);
    assert first + rest == s;
  }

  lemma OneLine(s: seq<byte>, first: seq<byte>)
    requires FirstLine(first, s)
    ensures forall text :: FirstLine(text, s) <==> text == first
  {
    forall text | FirstLine(text, s) ensures text == first {
      NotLonger(s, text, first);
      NotLonger(s, first, text);
      assert text == s[..|text|] && first == s[..|first|];
    }
  }

  lemma NotLonger(s: seq<byte>, a: seq<byte>, b: seq<byte>)
    requires FirstLine(a, s) && FirstLine(b, s)
    ensures |a| <= |b|
  {
    var k := |b| - 1;
    assert b[k] == s[k];
  }

  lemma NoLine(s: seq<byte>)
    requires s == [] || EndOfLine(s) >= MAX_INPUT
    requires EndOfLine(s) == |s| ==> s == [] || |s| > MAX_INPUT
    ensures forall text :: !FirstLine(text, s)
  {
    assert forall text: seq<byte> | text != [] && text <= s :: text[|text| - 1] == s[|text| - 1];
  }

  lemma EndOfLinePrefix(a: seq<byte>, b: seq<byte>)
    ensures EndOfLine(a) < |a| ==> EndOfLine(a + b) == EndOfLine(a)
    ensures EndOfLine(a) == |a| ==> EndOfLine(a + b) >= |a|
  {
    assert forall i :: 0 <= i < |a| ==> (a + b)[i] == a[i];
  }

  lemma CutAtSeen(seen: seq<byte>, later: seq<byte>, e: nat)
    requires e < |seen|
    ensures CutAt(seen + later, e) == (CutAt(seen, e).0, CutAt(seen, e).1 + later)
  {
    CutConcat(seen, later, e + 1);
  }

  lemma {:induction false} LineSeen(seen: seq<byte>, later: seq<byte>)
    requires EndOfLine(seen) < |seen|
    ensures CutOf(seen + later) == (CutOf(seen).0, CutOf(seen).1 + later)
  {
    EndOfLinePrefix(seen, later);
    CutAtSeen(seen, later, EndOfLine(seen));
  }

  lemma {:induction false} OverlongSeen(seen: seq<byte>, later: seq<byte>)
    requires EndOfLine(seen) == |seen| > MAX_INPUT
    ensures CutOf(seen + later) == (Over, seen + later)
  {
    EndOfLinePrefix(seen, later);
  }

  /** Bytes that arrive later never change an answer that is already determined. */
  lemma {:induction false} LaterBytesChangeNothing(seen: seq<byte>, later: seq<byte>)
    requires EndOfLine(seen) < |seen| || |seen| > MAX_INPUT
    ensures NextOf(seen + later).0 == NextOf(seen).0
    ensures NextOf(seen + later).1 == NextOf(seen).1 + later
  {
    if EndOfLine(seen) < |seen| {
      LineSeen(seen, later);
    } else {
      OverlongSeen(seen, later);
    }
  }

  /** The answers of n calls, and what is left after them: nothing but the stream matters. */
  function Answers(s: seq<byte>, n: nat): (r: seq<Line>)
    ensures |r| == n
    decreases n
  {
    if n == 0 then [] else [NextOf(s).0] + Answers(NextOf(s).1, n - 1)
  }

  function After(s: seq<byte>, n: nat): seq<byte>
    decreases n
  {
    if n == 0 then s else After(NextOf(s).1, n - 1)
  }

  /** The bytes an answer hands over. */
  function TextOf(line: Line): seq<byte> {
    if line.Ok? && line.value.Some? then line.value.value else []
  }

  function Joined(lines: seq<Line>): seq<byte> {
    if lines == [] then [] else TextOf(lines[0]) + Joined(lines[1..])
  }

  predicate AllOk(lines: seq<Line>) {
    forall i :: 0 <= i < |lines| ==> lines[i].Ok?
  }

  /** As long as no call fails, the lines returned so far are exactly the part of the stream consumed. */
  lemma {:induction false} LinesRebuildStream(s: seq<byte>, n: nat)
    requires AllOk(Answers(s, n))
    ensures Joined(Answers(s, n)) + After(s, n) == s
    decreases n
  {
    if n > 0 {
      var line, rest := NextOf(s).0, NextOf(s).1;
      AnswersUnfold(s, n - 1, line, rest);
      LinesRebuildStream(rest, n - 1);
      NextRebuilds(s, line, rest);
      JoinedCons(line, Answers(rest, n - 1));
      Assoc(TextOf(line), Joined(Answers(rest, n - 1)), After(rest, n - 1));
    }
  }

  lemma AnswersUnfold(s: seq<byte>, n: nat, line: Line, rest: seq<byte>)
    requires (line, rest) == NextOf(s)
    requires AllOk(Answers(s, n + 1))
    ensures Answers(s, n + 1) == [line] + Answers(rest, n) && After(s, n + 1) == After(rest, n)
    ensures line.Ok?
    ensures AllOk(Answers(rest, n))
  {
    var all, tail := Answers(s, n + 1), Answers(rest, n);
    assert all == [line] + tail && all[0] == line;
    assert forall i :: 0 <= i < n ==> tail[i] == all[i + 1];
  }

  lemma JoinedCons(line: Line, tail: seq<Line>)
    ensures Joined([line] + tail) == TextOf(line) + Joined(tail)
  {
    assert ([line] + tail)[1..] == tail;
  }

  lemma NextRebuilds(s: seq<byte>, line: Line, rest: seq<byte>)
    requires (line, rest) == NextOf(s) && line.Ok?
    ensures s == TextOf(line) + rest
  {
    var e := EndOfLine(s);
    if e < |s| {
      assert s == s[..e + 1] + s[e + 1..];
    }
  }

  class Reader {
    var pending: seq<byte>
    var eof: bool
    /** The reads the operating system has yet to serve. */
    var script: seq<Read>

    predicate Valid()
      reads this
    {
      && |pending| <= MAX_INPUT + READ_SIZE && (eof ==> script == [])
      && forall r :: r in script && r.Chunk? ==> 0 < |r.bytes| <= READ_SIZE
    }

    /** Every byte a caller has yet to receive. */
    function Remaining(): seq<byte>
      reads this
    {
      pending + if eof then [] else Stream(script)
    }

    constructor (all: seq<Read>)
      requires forall r :: r in all && r.Chunk? ==> 0 < |r.bytes| <= READ_SIZE
      ensures Valid() && Remaining() == Stream(all) && script == all && !eof
    {
      pending, eof, script := [], false, all;
    }

    /** One read: more bytes, nothing yet, end of file, or a fault. */
    method Fill() returns (ok: bool)
      requires Valid() && !eof && |pending| <= MAX_INPUT
      modifies this
      ensures Valid() && Remaining() == old(Remaining())
      ensures Faults(script) == old(Faults(script)) - if ok then 0 else 1
      ensures |script| < |old(script)| || (script == old(script) && eof)
    {
      if script == [] {
        eof := true;
        return true;
      }
      var read := script[0];
      assert read in script && forall r :: r in script[1..] ==> r in script;
      script := script[1..];
      if read.Chunk? {
        Assoc(pending, read.bytes, Stream(script));
        pending := pending + read.bytes;
      }
      ok := !read.Fault?;
    }

    /** The reading loop: cut the next line, whatever reads it takes. */
    method NextCut() returns (cut: Option<Cut>)
      requires Valid()
      modifies this
      ensures Valid()
      ensures cut.Some? ==> (cut.value, Remaining()) == CutOf(old(Remaining()))
      ensures cut.None? ==> Remaining() == old(Remaining()) && Faults(script) == old(Faults(script)) - 1
      ensures cut.Some? ==> Faults(script) == old(Faults(script))
      ensures cut == Some(End) ==> script == []
    {
      ghost var all := Remaining();
      while true
        invariant Valid() && Remaining() == all
        invariant Faults(script) == old(Faults(script))
        decreases |script|, !eof
      {
        ghost var unread := if eof then [] else Stream(script);
        var end := EndOfLine(pending);
        if end < |pending| {
          LineSeen(pending, unread);
          if end >= MAX_INPUT {
            return Some(Over);
          }
          cut := Some(Whole(pending[..end + 1]));
          pending := pending[end + 1..];
          return;
        }
        if |pending| > MAX_INPUT {
          OverlongSeen(pending, unread);
          return Some(Over);
        }
        if eof {
          assert all == pending;
          cut := Some(if pending == [] then End else Whole(pending));
          pending := [];
          assert Remaining() == [];
          return;
        }
        var ok := Fill();
        if !ok {
          return None;
        }
      }
    }

    method NextLine() returns (line: Line)
      requires Valid()
      modifies this
      ensures Valid()
      ensures line != Err(Io) ==> (line, Remaining()) == NextOf(old(Remaining()))
      ensures line == Err(Io) ==> Remaining() == old(Remaining()) && Faults(script) == old(Faults(script)) - 1
      ensures line != Err(Io) ==> Faults(script) == old(Faults(script))
      ensures line == Ok(None) ==> script == []
    {
      var cut := NextCut();
      line := if cut.None? then Err(Io) else Judge(cut.value);
    }

    /**
     * The whole input is returned exactly when no read faults and it is at most one MiB of valid UTF-8, however
     * it was chunked. A fault is reported only when there is one, and the input is blamed only when it is at fault.
     */
    method All() returns (text: Result<seq<byte>, LineError>)
      requires Valid()
      modifies this
      ensures text.Ok? <==> old(Faults(script)) == 0 && Acceptable(old(Remaining()))
      ensures text.Ok? ==> text.value == old(Remaining())
      ensures text == Err(Io) ==> old(Faults(script)) > 0
      ensures text.Err? && text.error != Io ==> !Acceptable(old(Remaining()))
    {
      ghost var all := Remaining();
      var collected: seq<byte> := [];
      while true
        invariant Valid() && Faults(script) == old(Faults(script))
        invariant Collecting(collected, Remaining(), all)
        decreases |Remaining()|
      {
        ghost var before := Remaining();
        var line := NextLine();
        Collect(collected, before, all);
        if line.Err? {
          return Err(line.error);
        }
        if line.value.None? {
          return Ok(collected);
        }
        if |collected| + |line.value.value| > MAX_INPUT {
          return Err(TooLong);
        }
        collected := collected + line.value.value;
      }
    }
  }

  predicate Acceptable(all: seq<byte>) {
    |all| <= MAX_INPUT && Utf8.Valid(all)
  }

  /** The collected text is a valid part of the input that ends with a line, or with the input. */
  predicate Collecting(collected: seq<byte>, rest: seq<byte>, all: seq<byte>) {
    && collected + rest == all
    && Acceptable(collected)
    && (collected == [] || collected[|collected| - 1] == NEWLINE || rest == [])
  }

  lemma Collect(collected: seq<byte>, s: seq<byte>, all: seq<byte>)
    requires Collecting(collected, s, all)
    ensures
      var (line, rest) := NextOf(s);
      if line.Err? then !Acceptable(all)
      else if line.value.None? then collected == all
      else if |collected| + |line.value.value| > MAX_INPUT then !Acceptable(all)
      else Collecting(collected + line.value.value, rest, all) && |rest| < |s|
  {
    TakeOne(collected, s);
    var (line, rest) := NextOf(s);
    if line.Ok? && line.value.Some? {
      Assoc(collected, line.value.value, rest);
    }
  }

  /** What one more answer means for the text collected so far. */
  predicate Taken(collected: seq<byte>, s: seq<byte>, line: Line, rest: seq<byte>) {
    if line == Err(TooLong) then |collected + s| > MAX_INPUT
    else if line.Err? then !Utf8.Valid(collected + s)
    else if line.value.None? then s == []
    else
      var text := line.value.value;
      && text != [] && text + rest == s && Utf8.Valid(collected + text)
      && (text[|text| - 1] == NEWLINE || rest == [])
  }

  lemma {:induction false} TakeOne(collected: seq<byte>, s: seq<byte>)
    requires Utf8.Valid(collected)
    requires collected == [] || collected[|collected| - 1] == NEWLINE || s == []
    ensures Taken(collected, s, NextOf(s).0, NextOf(s).1)
  {
    var e := EndOfLine(s);
    if s != [] {
      Utf8.ValidConcat(collected, s);
      if e < |s| {
        TakeLine(collected, s, e);
      }
    }
  }

  lemma TakeLine(collected: seq<byte>, s: seq<byte>, e: nat)
    requires e < |s| && s[e] == NEWLINE
    requires Utf8.Valid(collected + s) <==> Utf8.Valid(s)
    requires Utf8.Valid(collected)
    requires collected == [] || collected[|collected| - 1] == NEWLINE
    ensures Taken(collected, s, Judge(CutAt(s, e).0), CutAt(s, e).1)
  {
    if e < MAX_INPUT {
      var text, rest := s[..e + 1], s[e + 1..];
      assert text + rest == s && text[|text| - 1] == s[e];
      TakeText(collected, text, rest);
      assert CutAt(s, e) == (Whole(text), rest);
    } else {
      assert CutAt(s, e) == (Over, s);
    }
  }

  lemma TakeText(collected: seq<byte>, text: seq<byte>, rest: seq<byte>)
    requires Utf8.Valid(collected + (text + rest)) <==> Utf8.Valid(text + rest)
    requires text != [] && text[|text| - 1] == NEWLINE
    requires Utf8.Valid(collected)
    requires collected == [] || collected[|collected| - 1] == NEWLINE
    ensures Taken(collected, text + rest, Judge(Whole(text)), rest)
  {
    Utf8.ValidConcat(text, rest);
    Utf8.ValidConcat(collected, text);
  }
}
