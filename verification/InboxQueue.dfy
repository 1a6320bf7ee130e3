/** The inbox queue read entry by entry: what its operations select, mark and keep, and in which order. */
module InboxQueue {
  import opened Wrappers
  import opened Inbox

  /** A queue is in order when its identifiers rise, within the bounds. */
  lemma {:induction false} SortedIff(es: seq<Entry>, low: nat, high: nat)
    ensures Sorted(es, low, high) <==>
      && low <= high
      && (forall i :: 0 <= i < |es| ==> low <= es[i].id < high)
      && forall i, j :: 0 <= i < j < |es| ==> es[i].id < es[j].id
    decreases es
  {
    if es != [] {
      var rest := es[1..];
      SortedIff(rest, es[0].id + 1, high);
      assert forall i :: 0 < i < |es| ==> es[i] == rest[i - 1];
      assert forall i :: 0 <= i < |rest| ==> rest[i] == es[i + 1];
    }
  }

  predicate Rising(es: seq<Entry>) {
    forall i, j :: 0 <= i < j < |es| ==> es[i].id < es[j].id
  }

  /** Two queues in order that hold the same entries are the same. */
  lemma {:induction false} RisingUnique(a: seq<Entry>, b: seq<Entry>)
    requires Rising(a) && Rising(b) && forall e :: e in a <==> e in b
    ensures a == b
    decreases |a|
  {
    if a == [] {
      if b != [] {
        var _ := Head(b);
      }
    } else {
      assert a[0] in a && a[0] in b;
      assert b[0] in b && b[0] in a;
      assert a[0] == b[0];
      forall e ensures e in a[1..] <==> e in b[1..] {
        RestMembers(a, e);
        RestMembers(b, e);
      }
      RisingUnique(a[1..], b[1..]);
      assert a == [a[0]] + a[1..] && b == [b[0]] + b[1..];
    }
  }

  lemma Head(es: seq<Entry>) returns (e: Entry)
    requires es != []
    ensures e in es
  {
    e := es[0];
  }

  lemma RestMembers(a: seq<Entry>, e: Entry)
    requires Rising(a) && a != []
    ensures e in a[1..] <==> e in a && e != a[0]
  {
    assert a == [a[0]] + a[1..];
  }

  /** What an operation selects from a queue in order: exactly the wanted entries, still in order. */
  ghost predicate Selects(picked: seq<Entry>, es: seq<Entry>, wanted: Entry -> bool) {
    Rising(picked) && forall e :: e in picked <==> e in es && wanted(e)
  }

  lemma SelectsCons(picked: seq<Entry>, es: seq<Entry>, wanted: Entry -> bool)
    requires Rising(es) && es != [] && Selects(picked, es[1..], wanted)
    ensures Selects(if wanted(es[0]) then [es[0]] + picked else picked, es, wanted)
  {
    var all := [es[0]] + picked;
    forall i, j | 0 <= i < j < |all| ensures all[i].id < all[j].id {
      assert all[j] in picked && all[j] in es[1..];
    }
    assert es == [es[0]] + es[1..];
  }

  /** A claim takes exactly the session's messages, and what others sent stays, both in the order of the queue. */
  lemma {:induction false} SessionExact(es: seq<Entry>, session: string)
    requires Rising(es)
    ensures Selects(InSession(es, session), es, (e: Entry) => e.session == session)
    ensures Selects(Others(es, session), es, (e: Entry) => e.session != session)
    decreases es
  {
    if es != [] {
      SessionExact(es[1..], session);
      SelectsCons(InSession(es[1..], session), es, (e: Entry) => e.session == session);
      SelectsCons(Others(es[1..], session), es, (e: Entry) => e.session != session);
    }
  }

  /** A commit takes exactly the entries its claim marked, and leaves the others, both in the order of the queue. */
  lemma {:induction false} CommitExact(es: seq<Entry>, token: nat)
    requires Rising(es)
    ensures Selects(Owned(es, token), es, (e: Entry) => e.claim == Some(token))
    ensures Selects(Without(es, token), es, (e: Entry) => e.claim != Some(token))
    decreases es
  {
    if es != [] {
      CommitExact(es[1..], token);
      SelectsCons(Owned(es[1..], token), es, (e: Entry) => e.claim == Some(token));
      SelectsCons(Without(es[1..], token), es, (e: Entry) => e.claim != Some(token));
    }
  }

  /** Claiming and giving back change nothing but the mark of the entries concerned, and none moves. */
  lemma {:induction false} MarksExact(es: seq<Entry>, session: string, token: nat)
    ensures |MarkAll(es, session, token)| == |es| == |FreeAll(es, token)|
    ensures forall i :: 0 <= i < |es| ==>
      MarkAll(es, session, token)[i] == if es[i].session == session then es[i].(claim := Some(token)) else es[i]
    ensures forall i :: 0 <= i < |es| ==>
      FreeAll(es, token)[i] == if es[i].claim == Some(token) then es[i].(claim := None) else es[i]
    decreases es
  {
    if es != [] {
      MarksExact(es[1..], session, token);
    }
  }

  /** The identifiers and the messages of a queue, entry by entry. */
  lemma {:induction false} PartsExact(es: seq<Entry>)
    ensures |Ids(es)| == |MessagesOf(es)| == |es|
    ensures forall i :: 0 <= i < |es| ==> Ids(es)[i] == es[i].id && MessagesOf(es)[i] == es[i].message
    decreases es
  {
    if es != [] {
      PartsExact(es[1..]);
    }
  }

  /** The accounted bytes: each entry counts once, with the size recorded when it was accepted. */
  lemma {:induction false} BytesExact(a: seq<Entry>, e: Entry, b: seq<Entry>)
    ensures Bytes(a + [e] + b) == Bytes(a) + e.bytes + Bytes(b) && Bytes([]) == 0
    decreases a
  {
    if a == [] {
      assert a + [e] + b == [e] + b;
      IdsCons(e, b);
    } else {
      BytesExact(a[1..], e, b);
      assert (a + [e] + b)[1..] == a[1..] + [e] + b;
    }
  }
}
