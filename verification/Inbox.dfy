/** Ephemeral messages queued for a session's next turn: claimed, then committed or given back. */
module Inbox {
  import opened Wrappers

  const MAX_ENTRIES: nat := 32
  const MAX_INBOX_BYTES: nat := 4 * 1024 * 1024
  const MAX_CUSTOM_MESSAGE_BYTES: nat := 2 * 1024 * 1024 - 4096

  /** `encoded` is the length of the message's JSON form; `wellFormed` is the verdict of its own validation. */
  datatype CustomMessage = CustomMessage(text: string, encoded: nat, wellFormed: bool)

  datatype Entry = Entry(id: nat, session: string, message: CustomMessage, bytes: nat, claim: Option<nat>)

  datatype InboxError = InvalidMessage | QueueFull | CustomBusy | AlreadyClaimed

  // ----- what each operation does to the queue -----

  function Ids(es: seq<Entry>): (r: seq<nat>)
    ensures |r| == |es|
  {
    if es == [] then [] else [es[0].id] + Ids(es[1..])
  }

  function Bytes(es: seq<Entry>): nat {
    if es == [] then 0 else es[0].bytes + Bytes(es[1..])
  }

  function Mark(e: Entry, session: string, token: nat): Entry {
    if e.session == session then e.(claim := Some(token)) else e
  }

  function MarkAll(es: seq<Entry>, session: string, token: nat): seq<Entry> {
    if es == [] then [] else [Mark(es[0], session, token)] + MarkAll(es[1..], session, token)
  }

  function Free(e: Entry, token: nat): Entry {
    if e.claim == Some(token) then e.(claim := None) else e
  }

  function FreeAll(es: seq<Entry>, token: nat): seq<Entry> {
    if es == [] then [] else [Free(es[0], token)] + FreeAll(es[1..], token)
  }

  function Owned(es: seq<Entry>, token: nat): seq<Entry> {
    if es == [] then []
    else if es[0].claim == Some(token) then [es[0]] + Owned(es[1..], token)
    else Owned(es[1..], token)
  }

  function Without(es: seq<Entry>, token: nat): seq<Entry> {
    if es == [] then []
    else if es[0].claim == Some(token) then Without(es[1..], token)
    else [es[0]] + Without(es[1..], token)
  }

  function InSession(es: seq<Entry>, session: string): seq<Entry> {
    if es == [] then []
    else if es[0].session == session then [es[0]] + InSession(es[1..], session)
    else InSession(es[1..], session)
  }

  predicate Sorted(es: seq<Entry>, low: nat, high: nat) {
    if es == [] then low <= high else low <= es[0].id && Sorted(es[1..], es[0].id + 1, high)
  }

  predicate Unclaimed(es: seq<Entry>, session: string) {
    forall e <- es :: e.session == session ==> e.claim.None?
  }

  predicate Unissued(es: seq<Entry>, token: nat) {
    forall e <- es :: e.claim != Some(token)
  }

  // ----- facts about those operations -----

  lemma {:induction false} AppendFacts(es: seq<Entry>, e: Entry, low: nat, high: nat)
    requires Sorted(es, low, high) && high <= e.id
    ensures Sorted(es + [e], low, e.id + 1)
    ensures Ids(es + [e]) == Ids(es) + [e.id]
    ensures Bytes(es + [e]) == Bytes(es) + e.bytes
    decreases es
  {
    if es == [] {
      assert es + [e] == [e];
      assert [e][1..] == [];
    } else {
      AppendFacts(es[1..], e, es[0].id + 1, high);
      assert (es + [e])[1..] == es[1..] + [e];
      Assoc([es[0].id], Ids(es[1..]), [e.id]);
    }
  }

  lemma {:induction false} OwnedAppend(es: seq<Entry>, e: Entry, token: nat)
    requires e.claim != Some(token)
    ensures Owned(es + [e], token) == Owned(es, token)
    decreases es
  {
    if es == [] {
      assert es + [e] == [e];
      assert [e][1..] == [];
    } else {
      OwnedAppend(es[1..], e, token);
      assert (es + [e])[1..] == es[1..] + [e];
    }
  }

  lemma {:induction false} MarkFacts(es: seq<Entry>, session: string, token: nat, low: nat, high: nat)
    requires Sorted(es, low, high)
    ensures
      var marked := MarkAll(es, session, token);
      && Ids(marked) == Ids(es) && Bytes(marked) == Bytes(es) && |marked| == |es| && Sorted(marked, low, high)
    decreases es
  {
    if es != [] {
      MarkFacts(es[1..], session, token, es[0].id + 1, high);
      assert MarkAll(es, session, token)[1..] == MarkAll(es[1..], session, token);
    }
  }

  lemma {:induction false} FreeFacts(es: seq<Entry>, token: nat, low: nat, high: nat)
    requires Sorted(es, low, high)
    ensures
      var freed := FreeAll(es, token);
      && Ids(freed) == Ids(es) && Bytes(freed) == Bytes(es) && |freed| == |es| && Sorted(freed, low, high)
    decreases es
  {
    if es != [] {
      FreeFacts(es[1..], token, es[0].id + 1, high);
      assert FreeAll(es, token)[1..] == FreeAll(es[1..], token);
    }
  }

  /** An abandoned claim leaves the queue exactly as it found it. */
  lemma {:induction false} DropUndoesClaim(es: seq<Entry>, session: string, token: nat)
    requires Unclaimed(es, session) && Unissued(es, token)
    ensures FreeAll(MarkAll(es, session, token), token) == es
    decreases es
  {
    if es != [] {
      DropUndoesClaim(es[1..], session, token);
      var marked := MarkAll(es, session, token);
      assert marked[0] == Mark(es[0], session, token) && marked[1..] == MarkAll(es[1..], session, token);
      assert Free(marked[0], token) == es[0];
    }
  }

  /** A claim takes exactly the session's messages, in order, and a commit takes exactly the claim. */
  lemma {:induction false} CommitTakesSession(es: seq<Entry>, session: string, token: nat)
    requires Unissued(es, token)
    ensures Ids(Owned(MarkAll(es, session, token), token)) == Ids(InSession(es, session))
    ensures Without(MarkAll(es, session, token), token) == Others(es, session)
    decreases es
  {
    if es != [] {
      CommitTakesSession(es[1..], session, token);
      var marked := MarkAll(es, session, token);
      assert marked[0] == Mark(es[0], session, token) && marked[1..] == MarkAll(es[1..], session, token);
      if es[0].session == session {
        IdsCons(marked[0], Owned(marked[1..], token));
        IdsCons(es[0], InSession(es[1..], session));
      }
    }
  }

  function Others(es: seq<Entry>, session: string): seq<Entry> {
    if es == [] then []
    else if es[0].session == session then Others(es[1..], session)
    else [es[0]] + Others(es[1..], session)
  }

  lemma IdsCons(e: Entry, es: seq<Entry>)
    ensures Ids([e] + es) == [e.id] + Ids(es)
    ensures Bytes([e] + es) == e.bytes + Bytes(es)
  {
    assert ([e] + es)[1..] == es;
  }

  /** Messages queued while a claim is open survive its commit. */
  lemma {:induction false} LaterSurvive(es: seq<Entry>, later: seq<Entry>, token: nat)
    requires Unissued(later, token)
    ensures Without(es + later, token) == Without(es, token) + later
    ensures Owned(es + later, token) == Owned(es, token)
    decreases es
  {
    if es == [] {
      assert es + later == later;
      NothingOwned(later, token);
    } else {
      LaterSurvive(es[1..], later, token);
      assert (es + later)[1..] == es[1..] + later;
      Assoc([es[0]], Without(es[1..], token), later);
    }
  }

  lemma {:induction false} NothingOwned(es: seq<Entry>, token: nat)
    requires Unissued(es, token)
    ensures Without(es, token) == es && Owned(es, token) == []
    decreases es
  {
    if es != [] {
      NothingOwned(es[1..], token);
    }
  }

  lemma {:induction false} WithoutSorted(es: seq<Entry>, token: nat, low: nat, low': nat, high: nat)
    requires Sorted(es, low, high) && low' <= low
    ensures Sorted(Without(es, token), low', high)
    decreases es
  {
    SortedBounds(es, low, high);
    if es != [] {
      var tail := Without(es[1..], token);
      if es[0].claim == Some(token) {
        WithoutSorted(es[1..], token, es[0].id + 1, low', high);
      } else {
        WithoutSorted(es[1..], token, es[0].id + 1, es[0].id + 1, high);
        assert ([es[0]] + tail)[1..] == tail;
      }
    }
  }

  lemma {:induction false} SortedBounds(es: seq<Entry>, low: nat, high: nat)
    requires Sorted(es, low, high)
    ensures low <= high
    decreases es
  {
    if es != [] {
      SortedBounds(es[1..], es[0].id + 1, high);
    }
  }

  lemma {:induction false} WithoutConserves(es: seq<Entry>, token: nat)
    ensures multiset(Ids(es)) == multiset(Ids(Without(es, token))) + multiset(Ids(Owned(es, token)))
    ensures Bytes(es) == Bytes(Without(es, token)) + Bytes(Owned(es, token))
    ensures |Without(es, token)| <= |es|
    decreases es
  {
    if es != [] {
      WithoutConserves(es[1..], token);
      assert Ids(es) == [es[0].id] + Ids(es[1..]);
      if es[0].claim == Some(token) {
        IdsCons(es[0], Owned(es[1..], token));
      } else {
        IdsCons(es[0], Without(es[1..], token));
      }
    }
  }

  lemma {:induction false} RemoveSorted(es: seq<Entry>, i: nat, low: nat, high: nat)
    requires i < |es| && Sorted(es, low, high)
    ensures Sorted(Removed(es, i), low, high)
    decreases es
  {
    RemovedStep(es, i);
    if i == 0 {
      SortedWeaken(es[1..], es[0].id + 1, low, high);
    } else {
      RemoveSorted(es[1..], i - 1, es[0].id + 1, high);
    }
  }

  lemma {:induction false} RemoveConserves(es: seq<Entry>, i: nat)
    requires i < |es|
    ensures multiset(Ids(es)) == multiset(Ids(Removed(es, i))) + multiset{es[i].id}
    ensures Bytes(es) == Bytes(Removed(es, i)) + es[i].bytes
    decreases es
  {
    RemovedStep(es, i);
    assert Ids(es) == [es[0].id] + Ids(es[1..]);
    if i > 0 {
      RemoveConserves(es[1..], i - 1);
      IdsCons(es[0], Removed(es[1..], i - 1));
    }
  }

  lemma SortedWeaken(es: seq<Entry>, low: nat, low': nat, high: nat)
    requires Sorted(es, low, high) && low' <= low
    ensures Sorted(es, low', high)
  {}

  // ----- what one claim keeps while others are made, committed or given back -----

  lemma {:induction false} OwnedIn(es: seq<Entry>, token: nat, e: Entry)
    ensures e in Owned(es, token) <==> e in es && e.claim == Some(token)
    decreases es
  {
    if es != [] {
      OwnedIn(es[1..], token, e);
    }
  }

  lemma {:induction false} OwnedRemove(es: seq<Entry>, i: nat, token: nat)
    requires i < |es| && es[i].claim != Some(token)
    ensures Owned(es[..i] + es[i + 1..], token) == Owned(es, token)
    decreases es
  {
    var rest := es[..i] + es[i + 1..];
    if i == 0 {
      assert rest == es[1..];
    } else {
      OwnedRemove(es[1..], i - 1, token);
      assert rest[1..] == es[1..][..i - 1] + es[1..][i..];
    }
  }

  lemma {:induction false} OwnedMark(es: seq<Entry>, session: string, fresh': nat, token: nat)
    requires Unclaimed(es, session) && fresh' != token
    ensures Owned(MarkAll(es, session, fresh'), token) == Owned(es, token)
    decreases es
  {
    if es != [] {
      OwnedMark(es[1..], session, fresh', token);
      var marked := MarkAll(es, session, fresh');
      assert marked[0] == Mark(es[0], session, fresh') && marked[1..] == MarkAll(es[1..], session, fresh');
    }
  }

  lemma {:induction false} OwnedFree(es: seq<Entry>, freed: nat, token: nat)
    requires freed != token
    ensures Owned(FreeAll(es, freed), token) == Owned(es, token)
    decreases es
  {
    if es != [] {
      OwnedFree(es[1..], freed, token);
      var kept := FreeAll(es, freed);
      assert kept[0] == Free(es[0], freed) && kept[1..] == FreeAll(es[1..], freed);
    }
  }

  lemma {:induction false} OwnedWithout(es: seq<Entry>, taken: nat, token: nat)
    requires taken != token
    ensures Owned(Without(es, taken), token) == Owned(es, token)
    decreases es
  {
    if es != [] {
      OwnedWithout(es[1..], taken, token);
      var rest := Without(es[1..], taken);
      if es[0].claim != Some(taken) {
        assert ([es[0]] + rest)[1..] == rest;
      }
    }
  }

  lemma {:induction false} MarkIn(es: seq<Entry>, session: string, token: nat, e: Entry)
    requires e in es
    ensures Mark(e, session, token) in MarkAll(es, session, token)
    decreases es
  {
    if e != es[0] {
      MarkIn(es[1..], session, token, e);
    }
  }

  lemma {:induction false} FreeIn(es: seq<Entry>, token: nat, e: Entry)
    requires e in es
    ensures Free(e, token) in FreeAll(es, token)
    decreases es
  {
    if e != es[0] {
      FreeIn(es[1..], token, e);
    }
  }

  lemma {:induction false} MarkClaims(es: seq<Entry>, session: string, token: nat)
    requires Issued(es, token)
    ensures Issued(MarkAll(es, session, token), token + 1)
    decreases es
  {
    if es != [] {
      MarkClaims(es[1..], session, token);
    }
  }

  lemma {:induction false} FreeClaims(es: seq<Entry>, token: nat, bound: nat)
    requires Issued(es, bound)
    ensures Issued(FreeAll(es, token), bound) && Unissued(FreeAll(es, token), token)
    decreases es
  {
    if es != [] {
      FreeClaims(es[1..], token, bound);
    }
  }

  lemma {:induction false} WithoutIn(es: seq<Entry>, token: nat, e: Entry)
    ensures e in Without(es, token) <==> e in es && e.claim != Some(token)
    decreases es
  {
    if es != [] {
      WithoutIn(es[1..], token, e);
    }
  }

  /** Every claim in the queue was handed out before `bound`. */
  predicate Issued(es: seq<Entry>, bound: nat) {
    forall e <- es :: e.claim.Some? ==> e.claim.value < bound
  }

  /** The identifiers handed out so far. */
  function Upto(next: nat): seq<nat> {
    if next <= 1 then [] else Upto(next - 1) + [next - 1]
  }

  function MessagesOf(es: seq<Entry>): seq<CustomMessage> {
    if es == [] then [] else [es[0].message] + MessagesOf(es[1..])
  }

  predicate Admissible(m: CustomMessage) {
    m.wellFormed && m.encoded <= MAX_CUSTOM_MESSAGE_BYTES
  }

  datatype Aspect = Numbering | Accounting | Room | Ordering | Claiming | Places

  ghost predicate Holds(
      a: Aspect, next: nat, bytes: nat, es: seq<Entry>, issued: nat, delivered: seq<nat>, discarded: seq<nat>)
  {
    match a
    case Numbering => 1 <= next <= WORD_MAX
    case Accounting => bytes == Bytes(es) <= MAX_INBOX_BYTES
    case Room => |es| <= MAX_ENTRIES
    case Ordering => Sorted(es, 1, next)
    case Claiming => Issued(es, issued)
    case Places => multiset(Ids(es)) + multiset(delivered) + multiset(discarded) == multiset(Upto(next))
  }

  /** Exact accounting, both limits, and every accepted message in exactly one place. */
  ghost predicate Sound(next: nat, bytes: nat, es: seq<Entry>, issued: nat, delivered: seq<nat>, discarded: seq<nat>) {
    forall a: Aspect :: Holds(a, next, bytes, es, issued, delivered, discarded)
  }

  lemma SoundIff(next: nat, bytes: nat, es: seq<Entry>, issued: nat, delivered: seq<nat>, discarded: seq<nat>)
    ensures Sound(next, bytes, es, issued, delivered, discarded) <==>
      && 1 <= next <= WORD_MAX
      && bytes == Bytes(es) <= MAX_INBOX_BYTES
      && |es| <= MAX_ENTRIES
      && Sorted(es, 1, next)
      && Issued(es, issued)
      && multiset(Ids(es)) + multiset(delivered) + multiset(discarded) == multiset(Upto(next))
  {
    if Sound(next, bytes, es, issued, delivered, discarded) {
      assert Holds(Numbering, next, bytes, es, issued, delivered, discarded);
      assert Holds(Accounting, next, bytes, es, issued, delivered, discarded);
      assert Holds(Room, next, bytes, es, issued, delivered, discarded);
      assert Holds(Ordering, next, bytes, es, issued, delivered, discarded);
      assert Holds(Claiming, next, bytes, es, issued, delivered, discarded);
      assert Holds(Places, next, bytes, es, issued, delivered, discarded);
    }
  }

  lemma {:induction false} UptoOnce(next: nat, id: nat)
    ensures multiset(Upto(next))[id] == if 1 <= id < next then 1 else 0
    decreases next
  {
    if next > 1 {
      UptoOnce(next - 1, id);
    }
  }

  /** An accepted message is pending, delivered or withdrawn: exactly one of them, and delivered at most once. */
  lemma ExactlyOnePlace(
      next: nat, bytes: nat, es: seq<Entry>, issued: nat, delivered: seq<nat>, discarded: seq<nat>, id: nat)
    requires Sound(next, bytes, es, issued, delivered, discarded)
    ensures multiset(Ids(es))[id] + multiset(delivered)[id] + multiset(discarded)[id] == if 1 <= id < next then 1 else 0
  {
    SoundIff(next, bytes, es, issued, delivered, discarded);
    UptoOnce(next, id);
    assert (multiset(Ids(es)) + multiset(delivered) + multiset(discarded))[id] == multiset(Upto(next))[id];
  }

  /** No claim other than `except` gains or loses a message. */
  ghost predicate ClaimsKept(before: seq<Entry>, after: seq<Entry>, except: Option<nat>) {
    forall t: nat :: except != Some(t) ==> Owned(after, t) == Owned(before, t)
  }

  lemma PushKeeps(
    next: nat, bytes: nat, es: seq<Entry>, issued: nat, delivered: seq<nat>, discarded: seq<nat>, e: Entry)
    requires Sound(next, bytes, es, issued, delivered, discarded)
    requires e.id == next < WORD_MAX && e.claim.None? && |es| < MAX_ENTRIES && bytes + e.bytes <= MAX_INBOX_BYTES
    ensures Sound(next + 1, bytes + e.bytes, es + [e], issued, delivered, discarded)
    ensures ClaimsKept(es, es + [e], None)
  {
    var next', bytes', es' := next + 1, bytes + e.bytes, es + [e];
    forall a: Aspect ensures Holds(a, next', bytes', es', issued, delivered, discarded) {
      PushHolds(a, next, bytes, es, issued, delivered, discarded, e);
    }
    forall t: nat ensures Owned(es + [e], t) == Owned(es, t) {
      OwnedAppend(es, e, t);
    }
  }

  lemma PushHolds(
      a: Aspect, next: nat, bytes: nat, es: seq<Entry>, issued: nat, delivered: seq<nat>, discarded: seq<nat>, e: Entry)
    requires Sound(next, bytes, es, issued, delivered, discarded)
    requires e.id == next < WORD_MAX && e.claim.None? && |es| < MAX_ENTRIES && bytes + e.bytes <= MAX_INBOX_BYTES
    ensures Holds(a, next + 1, bytes + e.bytes, es + [e], issued, delivered, discarded)
  {
    assert Holds(a, next, bytes, es, issued, delivered, discarded);
    assert Holds(Numbering, next, bytes, es, issued, delivered, discarded);
    assert Holds(Ordering, next, bytes, es, issued, delivered, discarded);
    AppendFacts(es, e, 1, next);
    if a.Places? {
      PushPlaces(next, es, delivered, discarded, e);
    }
  }

  lemma PushPlaces(next: nat, es: seq<Entry>, delivered: seq<nat>, discarded: seq<nat>, e: Entry)
    requires multiset(Ids(es)) + multiset(delivered) + multiset(discarded) == multiset(Upto(next))
    requires Ids(es + [e]) == Ids(es) + [e.id] && e.id == next >= 1
    ensures multiset(Ids(es + [e])) + multiset(delivered) + multiset(discarded) == multiset(Upto(next + 1))
  {
    assert Upto(next + 1) == Upto(next) + [next];
  }

  lemma DiscardKeeps(
    next: nat, bytes: nat, es: seq<Entry>, issued: nat, delivered: seq<nat>, discarded: seq<nat>, i: nat)
    requires Sound(next, bytes, es, issued, delivered, discarded)
    requires i < |es| && es[i].claim.None?
    ensures es[i].bytes <= bytes
    ensures Sound(next, bytes - es[i].bytes, es[..i] + es[i + 1..], issued, delivered, discarded + [es[i].id])
    ensures ClaimsKept(es, es[..i] + es[i + 1..], None)
  {
    SoundIff(next, bytes, es, issued, delivered, discarded);
    RemoveSorted(es, i, 1, next);
    RemoveConserves(es, i);
    SoundIff(next, bytes - es[i].bytes, es[..i] + es[i + 1..], issued, delivered, discarded + [es[i].id]);
    RemoveClaims(es, i);
  }

  lemma RemoveClaims(es: seq<Entry>, i: nat)
    requires i < |es| && es[i].claim.None?
    ensures ClaimsKept(es, es[..i] + es[i + 1..], None)
  {
    forall t: nat ensures Owned(es[..i] + es[i + 1..], t) == Owned(es, t) {
      OwnedRemove(es, i, t);
    }
  }

  lemma ClaimKeeps(
    next: nat, bytes: nat, es: seq<Entry>, issued: nat, delivered: seq<nat>, discarded: seq<nat>, session: string)
    requires Sound(next, bytes, es, issued, delivered, discarded) && Unclaimed(es, session)
    ensures Sound(next, bytes, MarkAll(es, session, issued), issued + 1, delivered, discarded)
    ensures ClaimsKept(es, MarkAll(es, session, issued), Some(issued))
    ensures Ids(Owned(MarkAll(es, session, issued), issued)) == Ids(InSession(es, session)) && Unissued(es, issued)
  {
    SoundIff(next, bytes, es, issued, delivered, discarded);
    SoundIff(next, bytes, MarkAll(es, session, issued), issued + 1, delivered, discarded);
    MarkFacts(es, session, issued, 1, next);
    MarkClaims(es, session, issued);
    CommitTakesSession(es, session, issued);
    forall t: nat | t != issued ensures Owned(MarkAll(es, session, issued), t) == Owned(es, t) {
      OwnedMark(es, session, issued, t);
    }
  }

  lemma CommitKeeps(
    next: nat, bytes: nat, es: seq<Entry>, issued: nat, delivered: seq<nat>, discarded: seq<nat>, token: nat)
    requires Sound(next, bytes, es, issued, delivered, discarded)
    ensures bytes == Bytes(es)
    ensures
      Sound(next, Bytes(Without(es, token)), Without(es, token), issued, delivered + Ids(Owned(es, token)), discarded)
    ensures ClaimsKept(es, Without(es, token), Some(token))
  {
    SoundIff(next, bytes, es, issued, delivered, discarded);
    SoundIff(next, Bytes(Without(es, token)), Without(es, token), issued, delivered + Ids(Owned(es, token)), discarded);
    WithoutConserves(es, token);
    WithoutSorted(es, token, 1, 1, next);
    forall e <- Without(es, token) ensures e in es {
      WithoutIn(es, token, e);
    }
    CommitClaims(es, token);
  }

  lemma CommitClaims(es: seq<Entry>, token: nat)
    ensures ClaimsKept(es, Without(es, token), Some(token))
  {
    forall t: nat | t != token ensures Owned(Without(es, token), t) == Owned(es, t) {
      OwnedWithout(es, token, t);
    }
  }

  lemma FreeKeeps(
    next: nat, bytes: nat, es: seq<Entry>, issued: nat, delivered: seq<nat>, discarded: seq<nat>, token: nat)
    requires Sound(next, bytes, es, issued, delivered, discarded)
    ensures Sound(next, bytes, FreeAll(es, token), issued, delivered, discarded)
    ensures ClaimsKept(es, FreeAll(es, token), Some(token))
  {
    SoundIff(next, bytes, es, issued, delivered, discarded);
    SoundIff(next, bytes, FreeAll(es, token), issued, delivered, discarded);
    FreeFacts(es, token, 1, next);
    FreeClaims(es, token, issued);
    forall t: nat | t != token ensures Owned(FreeAll(es, token), t) == Owned(es, t) {
      OwnedFree(es, token, t);
    }
  }

  /** Whether a host may withdraw the message at `i`. */
  predicate Matches(es: seq<Entry>, i: nat, session: string, id: nat) {
    i < |es| && es[i].session == session && es[i].id == id
  }

  class CustomInbox {
    var next: nat
    var bytes: nat
    var entries: seq<Entry>
    /** Claim tokens handed out; a random identifier is taken to be new. */
    var issued: nat
    /** Identifiers whose messages a committed claim delivered, and those a host withdrew. */
    ghost var delivered: seq<nat>
    ghost var discarded: seq<nat>

    ghost predicate Valid()
      reads this
    {
      Sound(next, bytes, entries, issued, delivered, discarded)
    }

    constructor ()
      ensures Valid() && entries == [] && next == 1 && delivered == [] && discarded == []
    {
      next, bytes, entries, issued, delivered, discarded := 1, 0, [], 0, [], [];
      SoundIff(1, 0, [], 0, [], []);
    }

    predicate HasRoom(m: CustomMessage)
      reads this
    {
      |entries| < MAX_ENTRIES && bytes + m.encoded <= MAX_INBOX_BYTES && next < WORD_MAX
    }

    method Push(session: string, message: CustomMessage) returns (r: Result<nat, InboxError>)
      requires Valid()
      modifies this`next, this`bytes, this`entries
      ensures Valid()
      ensures r.Ok? <==> Admissible(message) && old(HasRoom(message))
      ensures r == Err(InvalidMessage) <==> !message.wellFormed || message.encoded > 2 * 1024 * 1024 - 4096
      ensures r == Err(QueueFull) <==>
        && message.wellFormed && message.encoded <= 2 * 1024 * 1024 - 4096
        && (|old(entries)| >= 32 || old(bytes) + message.encoded > 4 * 1024 * 1024 || old(next) == WORD_MAX)
      ensures r.Ok? ==> bytes == old(bytes) + message.encoded
      ensures r.Err? ==> bytes == old(bytes)
      ensures r.Ok? ==> r.value == old(next) && next == old(next) + 1
      ensures r.Ok? ==> entries == old(entries) + [Entry(old(next), session, message, message.encoded, None)]
      ensures r.Err? ==> entries == old(entries) && next == old(next)
      ensures ClaimsKept(old(entries), entries, None)
    {
      assert Holds(Accounting, next, bytes, entries, issued, delivered, discarded);
      assert Holds(Numbering, next, bytes, entries, issued, delivered, discarded);
      if !message.wellFormed || message.encoded > MAX_CUSTOM_MESSAGE_BYTES {
        return Err(InvalidMessage);
      }
      if |entries| >= MAX_ENTRIES || message.encoded > SatSub(MAX_INBOX_BYTES, bytes) {
        return Err(QueueFull);
      }
      var id := next;
      if id + 1 > WORD_MAX {
        return Err(QueueFull);
      }
      var entry := Entry(id, session, message, message.encoded, None);
      PushKeeps(next, bytes, entries, issued, delivered, discarded, entry);
      next := id + 1;
      bytes := bytes + message.encoded;
      entries := entries + [entry];
      r := Ok(id);
    }

    /** The position of a host's message, or the length. */
    method Position(session: string, id: nat) returns (index: nat)
      ensures index <= |entries|
      ensures index < |entries| ==> Matches(entries, index, session, id)
      ensures forall i :: 0 <= i < index ==> !Matches(entries, i, session, id)
    {
      index := 0;
      while index < |entries| && !(entries[index].session == session && entries[index].id == id)
        invariant index <= |entries|
        invariant forall i :: 0 <= i < index ==> !Matches(entries, i, session, id)
      {
        index := index + 1;
      }
    }

    method Withdraw(at: nat)
      requires Valid() && at < |entries| && entries[at].claim.None?
      modifies this`bytes, this`entries, this`discarded
      ensures Valid()
      ensures entries == old(entries)[..at] + old(entries)[at + 1..]
      ensures discarded == old(discarded) + [old(entries)[at].id]
      ensures ClaimsKept(old(entries), entries, None)
    {
      DiscardKeeps(next, bytes, entries, issued, delivered, discarded, at);
      discarded := discarded + [entries[at].id];
      bytes := bytes - entries[at].bytes;
      entries := entries[..at] + entries[at + 1..];
    }

    /** A message is withdrawn when it is there and not claimed. */
    method Discard(session: string, id: nat) returns (r: Result<bool, InboxError>, ghost index: nat)
      requires Valid()
      modifies this`bytes, this`entries, this`discarded
      ensures Valid()
      ensures r == Ok(false) <==> forall i :: 0 <= i < |old(entries)| ==> !Matches(old(entries), i, session, id)
      ensures r != Ok(false) ==> Matches(old(entries), index, session, id)
      ensures r != Ok(false) ==> (r == Err(CustomBusy) <==> old(entries)[index].claim.Some?)
      ensures r == Ok(true) || r == Ok(false) || r == Err(CustomBusy)
      ensures r == Ok(true) ==> entries == old(entries)[..index] + old(entries)[index + 1..]
      ensures r != Ok(true) ==> entries == old(entries)
      ensures discarded == old(discarded) + if r == Ok(true) then [id] else []
      ensures ClaimsKept(old(entries), entries, None)
    {
      var at := Position(session, id);
      index := at;
      if at == |entries| {
        return Ok(false), index;
      }
      assert Matches(entries, at, session, id);
      if entries[at].claim.Some? {
        return Err(CustomBusy), index;
      }
      Withdraw(at);
      r := Ok(true);
    }

    /** Mark a session's messages and collect them. */
    method TakeSession(session: string, token: nat) returns (origins: seq<nat>, messages: seq<CustomMessage>)
      modifies this`entries
      ensures entries == MarkAll(old(entries), session, token)
      ensures origins == Ids(InSession(old(entries), session))
      ensures messages == MessagesOf(InSession(old(entries), session))
    {
      ghost var all := entries;
      origins, messages := [], [];
      var i := 0;
      while i < |entries|
        invariant i <= |entries| == |all|
        invariant entries[i..] == all[i..]
        invariant entries[..i] + MarkAll(all[i..], session, token) == MarkAll(all, session, token)
        invariant origins + Ids(InSession(all[i..], session)) == Ids(InSession(all, session))
        invariant messages + MessagesOf(InSession(all[i..], session)) == MessagesOf(InSession(all, session))
      {
        ClaimStep(entries, all, i, session, token);
        ClaimTake(all, i, session, origins, messages);
        if entries[i].session == session {
          origins, messages := origins + [entries[i].id], messages + [entries[i].message];
          entries := entries[i := entries[i].(claim := Some(token))];
        }
        i := i + 1;
      }
      assert entries[..i] == entries && all[i..] == [];
    }

    method Open(session: string) returns (token: nat, origins: seq<nat>, messages: seq<CustomMessage>)
      requires Valid() && Unclaimed(entries, session)
      modifies this`entries, this`issued
      ensures Valid() && token == old(issued) && issued == token + 1
      ensures entries == MarkAll(old(entries), session, token)
      ensures origins == Ids(InSession(old(entries), session)) == Ids(Owned(entries, token))
      ensures messages == MessagesOf(InSession(old(entries), session))
      ensures ClaimsKept(old(entries), entries, Some(token)) && Unissued(old(entries), token)
    {
      token := issued;
      ClaimKeeps(next, bytes, entries, issued, delivered, discarded, session);
      origins, messages := TakeSession(session, token);
      issued := token + 1;
    }

    /** Refused exactly when the session has an open claim; otherwise the session's messages, in order. */
    method Claim(session: string) returns (r: Result<CustomClaim, InboxError>)
      requires Valid()
      modifies this`entries, this`issued
      ensures Valid()
      ensures r.Ok? <==> Unclaimed(old(entries), session)
      ensures r.Err? ==> entries == old(entries) && issued == old(issued) && r.error == AlreadyClaimed
      ensures r.Ok? ==> issued == old(issued) + 1 && Unissued(old(entries), r.value.token)
      ensures r.Ok? ==> fresh(r.value) && r.value.inbox == this && r.value.Live() && !r.value.committed
      ensures r.Ok? ==> entries == MarkAll(old(entries), session, r.value.token) && r.value.token == old(issued)
      ensures r.Ok? ==> r.value.origins == Ids(InSession(old(entries), session))
      ensures r.Ok? ==> r.value.messages == MessagesOf(InSession(old(entries), session))
      ensures r.Ok? ==> ClaimsKept(old(entries), entries, Some(r.value.token))
    {
      if exists e <- entries :: e.session == session && e.claim.Some? {
        return Err(AlreadyClaimed);
      }
      var token, origins, messages := Open(session);
      var claim := new CustomClaim(this, token, messages, origins);
      r := Ok(claim);
    }

    /** Take a claim's messages off the queue. */
    method Remove(token: nat)
      requires bytes == Bytes(entries)
      modifies this`entries, this`bytes
      ensures entries == Without(old(entries), token) && bytes == Bytes(entries)
    {
      ghost var all := entries;
      var retained := [];
      WithoutConserves(all, token);
      while entries != []
        invariant retained + Without(entries, token) == Without(all, token)
        invariant bytes == Bytes(Without(all, token)) + Bytes(Owned(entries, token))
        decreases |entries|
      {
        var entry := entries[0];
        ghost var tail := entries[1..];
        IdsCons(entry, Owned(tail, token));
        Assoc(retained, [entry], Without(tail, token));
        entries := entries[1..];
        if entry.claim == Some(token) {
          bytes := bytes - entry.bytes;
        } else {
          retained := retained + [entry];
        }
      }
      entries := retained;
    }

    /** Give a claim's messages back. */
    method Unclaim(token: nat)
      modifies this`entries
      ensures entries == FreeAll(old(entries), token)
    {
      ghost var all := entries;
      var i := 0;
      while i < |entries|
        invariant i <= |entries| == |all|
        invariant entries[i..] == all[i..]
        invariant entries[..i] + FreeAll(all[i..], token) == FreeAll(all, token)
      {
        DropStep(entries, all, i, token);
        if entries[i].claim == Some(token) {
          entries := entries[i := entries[i].(claim := None)];
        }
        i := i + 1;
      }
      assert entries[..i] == entries && all[i..] == [];
    }

    /** Everything claimed leaves the queue as delivered; nothing else changes. */
    method Settle(token: nat, origins: seq<nat>)
      requires Valid() && Ids(Owned(entries, token)) == origins
      modifies this`entries, this`bytes, this`delivered
      ensures Valid()
      ensures entries == Without(old(entries), token)
      ensures delivered == old(delivered) + origins
      ensures ClaimsKept(old(entries), entries, Some(token))
    {
      CommitKeeps(next, bytes, entries, issued, delivered, discarded, token);
      Remove(token);
      delivered := delivered + origins;
    }

    method GiveBack(token: nat)
      requires Valid()
      modifies this`entries
      ensures Valid() && entries == FreeAll(old(entries), token)
      ensures ClaimsKept(old(entries), entries, Some(token))
    {
      FreeKeeps(next, bytes, entries, issued, delivered, discarded, token);
      Unclaim(token);
    }
  }

  lemma ClaimStep(es: seq<Entry>, all: seq<Entry>, i: nat, session: string, token: nat)
    requires i < |es| == |all| && es[i..] == all[i..]
    requires es[..i] + MarkAll(all[i..], session, token) == MarkAll(all, session, token)
    ensures
      var es' := es[i := Mark(es[i], session, token)];
      && es'[i + 1..] == all[i + 1..]
      && es'[..i + 1] + MarkAll(all[i + 1..], session, token) == MarkAll(all, session, token)
    ensures es[i] == all[i]
    ensures Mark(es[i], session, token) == es[i] ==> es[i := Mark(es[i], session, token)] == es
  {
    var es' := es[i := Mark(es[i], session, token)];
    assert es[i] == es[i..][0] == all[i..][0];
    assert all[i..][1..] == all[i + 1..] == es[i..][1..] == es'[i + 1..];
    assert es'[..i + 1] == es[..i] + [Mark(all[i..][0], session, token)];
    Assoc(es[..i], [Mark(all[i..][0], session, token)], MarkAll(all[i + 1..], session, token));
  }

  lemma ClaimTake(all: seq<Entry>, i: nat, session: string, origins: seq<nat>, messages: seq<CustomMessage>)
    requires i < |all|
    ensures
      var now, later := InSession(all[i..], session), InSession(all[i + 1..], session);
      if all[i].session == session then
        && origins + Ids(now) == origins + [all[i].id] + Ids(later)
        && messages + MessagesOf(now) == messages + [all[i].message] + MessagesOf(later)
      else now == later
  {
    assert all[i..][0] == all[i] && all[i..][1..] == all[i + 1..];
    var rest := InSession(all[i + 1..], session);
    IdsCons(all[i], rest);
    assert ([all[i]] + rest)[1..] == rest;
    Assoc(origins, [all[i].id], Ids(rest));
    Assoc(messages, [all[i].message], MessagesOf(rest));
  }

  lemma DropStep(es: seq<Entry>, all: seq<Entry>, i: nat, token: nat)
    requires i < |es| == |all| && es[i..] == all[i..]
    requires es[..i] + FreeAll(all[i..], token) == FreeAll(all, token)
    ensures
      var es' := es[i := Free(es[i], token)];
      && es'[i + 1..] == all[i + 1..]
      && es'[..i + 1] + FreeAll(all[i + 1..], token) == FreeAll(all, token)
    ensures Free(es[i], token) == es[i] ==> es[i := Free(es[i], token)] == es
  {
    var es' := es[i := Free(es[i], token)];
    assert es[i] == es[i..][0] == all[i..][0];
    assert all[i..][1..] == all[i + 1..] == es[i..][1..] == es'[i + 1..];
    assert es'[..i + 1] == es[..i] + [Free(all[i..][0], token)];
    Assoc(es[..i], [Free(all[i..][0], token)], FreeAll(all[i + 1..], token));
  }

  class CustomClaim {
    const inbox: CustomInbox
    const token: nat
    const origins: seq<nat>
    var messages: seq<CustomMessage>
    var committed: bool

    /** The queue still holds exactly what was claimed, in the same order. */
    ghost predicate Live()
      reads inbox
    {
      token < inbox.issued && Ids(Owned(inbox.entries, token)) == origins
    }

    constructor (i: CustomInbox, t: nat, ms: seq<CustomMessage>, os: seq<nat>)
      ensures inbox == i && token == t && messages == ms && origins == os && !committed
    {
      inbox, token, messages, origins, committed := i, t, ms, os, false;
    }

    /** Everything claimed leaves the queue as delivered; nothing else changes. */
    method Commit()
      requires inbox.Valid() && Live()
      modifies this`committed, inbox`entries, inbox`bytes, inbox`delivered
      ensures inbox.Valid() && committed
      ensures inbox.entries == Without(old(inbox.entries), token)
      ensures inbox.delivered == old(inbox.delivered) + origins
      ensures ClaimsKept(old(inbox.entries), inbox.entries, Some(token))
    {
      inbox.Settle(token, origins);
      committed := true;
    }

    /** What happens when the claim goes out of scope. */
    method Drop()
      requires inbox.Valid()
      modifies inbox`entries
      ensures inbox.Valid()
      ensures inbox.entries == if committed then old(inbox.entries) else FreeAll(old(inbox.entries), token)
      ensures ClaimsKept(old(inbox.entries), inbox.entries, Some(token))
    {
      if !committed {
        inbox.GiveBack(token);
      }
    }
  }

  // ----- the consumer -----

  /** What goes on while a turn is prepared: calls of hosts, and other turns that claim, commit and give back. */
  datatype Other =
    | Push(session: string, message: CustomMessage)
    | Discard(session: string, id: nat)
    | Claim(session: string)
    | Commit(token: nat)
    | GiveBack(token: nat)

  /** The open claims of other turns: each holds exactly the messages it was handed. */
  ghost predicate Held(es: seq<Entry>, issued: nat, open: map<nat, seq<nat>>) {
    forall t <- open :: t < issued && Ids(Owned(es, t)) == open[t]
  }

  lemma HeldOn(
    es: seq<Entry>, es': seq<Entry>, issued: nat, issued': nat, open: map<nat, seq<nat>>, except: Option<nat>)
    requires Held(es, issued, open) && ClaimsKept(es, es', except) && issued <= issued'
    ensures Held(es', issued', if except.Some? then open - {except.value} else open)
  {}

  lemma HeldMore(es: seq<Entry>, es': seq<Entry>, issued: nat, open: map<nat, seq<nat>>, origins: seq<nat>)
    requires Held(es, issued, open) && ClaimsKept(es, es', Some(issued)) && Ids(Owned(es', issued)) == origins
    ensures Held(es', issued + 1, open[issued := origins])
  {}

  /** The start of a turn: pending messages are logged with it, or stay pending. */
  class Agent {
    const inbox: CustomInbox
    /** Identifiers of the messages written to session logs. */
    var logged: seq<nat>
    /** The claims other turns have under way: their tokens, and the messages they were handed. */
    var open: map<nat, seq<nat>>

    ghost predicate Valid()
      reads this, inbox
    {
      inbox.Valid() && logged == inbox.delivered && Held(inbox.entries, inbox.issued, open)
    }

    /** A claim of this turn's own is none of theirs. */
    ghost predicate Apart(mine: nat)
      reads this, inbox
    {
      mine < inbox.issued && mine !in open
    }

    constructor (i: CustomInbox)
      requires i.Valid() && i.delivered == []
      ensures inbox == i && logged == [] && open == map[] && Valid()
    {
      inbox, logged, open := i, [], map[];
    }

    /** A step of a host. */
    method Use(call: Other)
      requires Valid() && (call.Push? || call.Discard?)
      modifies inbox`next, inbox`bytes, inbox`entries, inbox`discarded
      ensures Valid() && ClaimsKept(old(inbox.entries), inbox.entries, None)
    {
      ghost var es := inbox.entries;
      if call.Push? {
        var _ := inbox.Push(call.session, call.message);
      } else {
        var _, _ := inbox.Discard(call.session, call.id);
      }
      HeldOn(es, inbox.entries, inbox.issued, inbox.issued, open, None);
    }

    /** Another turn begins. */
    method ClaimElsewhere(session: string)
      requires Valid()
      modifies this`open, inbox`entries, inbox`issued
      ensures Valid() && (inbox.issued == old(inbox.issued) || inbox.issued == old(inbox.issued) + 1)
      ensures open == old(open) || open.Keys == old(open).Keys + {old(inbox.issued)}
      ensures ClaimsKept(old(inbox.entries), inbox.entries, Some(old(inbox.issued)))
    {
      ghost var es := inbox.entries;
      var claimed := inbox.Claim(session);
      if claimed.Ok? {
        HeldMore(es, inbox.entries, claimed.value.token, open, claimed.value.origins);
        open := open[claimed.value.token := claimed.value.origins];
      }
    }

    /** Another turn logs what it claimed, or gives it back. */
    method EndElsewhere(token: nat, commit: bool) returns (ghost others: seq<nat>)
      requires Valid() && token in open
      modifies this`logged, this`open, inbox`entries, inbox`bytes, inbox`delivered
      ensures Valid()
      ensures ClaimsKept(old(inbox.entries), inbox.entries, Some(token))
      ensures logged == old(logged) + others && others == if commit then old(open)[token] else []
      ensures open == old(open) - {token}
    {
      ghost var es := inbox.entries;
      others := [];
      if commit {
        others := open[token];
        logged := logged + open[token];
        inbox.Settle(token, open[token]);
      } else {
        inbox.GiveBack(token);
      }
      HeldOn(es, inbox.entries, inbox.issued, inbox.issued, open, Some(token));
      open := open - {token};
    }

    method Perform(call: Other, ghost mine: nat) returns (ghost others: seq<nat>)
      requires Valid() && Apart(mine)
      modifies this`logged, this`open
      modifies inbox`next, inbox`bytes, inbox`entries, inbox`issued, inbox`delivered, inbox`discarded
      ensures Valid() && Apart(mine)
      ensures Owned(inbox.entries, mine) == Owned(old(inbox.entries), mine)
      ensures logged == old(logged) + others
    {
      others := [];
      if call.Claim? {
        ClaimElsewhere(call.session);
      } else if call.Commit? || call.GiveBack? {
        if call.token in open {
          others := EndElsewhere(call.token, call.Commit?);
        }
      } else {
        Use(call);
      }
    }

    /** Hosts and other turns keep using the inbox; what they log in the meantime is `others`. */
    method Interfere(calls: seq<Other>, ghost mine: nat) returns (ghost others: seq<nat>)
      requires Valid() && Apart(mine)
      modifies this`logged, this`open
      modifies inbox`next, inbox`bytes, inbox`entries, inbox`issued, inbox`delivered, inbox`discarded
      ensures Valid() && Apart(mine)
      ensures Owned(inbox.entries, mine) == Owned(old(inbox.entries), mine)
      ensures logged == old(logged) + others
      ensures calls == [] ==> inbox.entries == old(inbox.entries) && others == []
    {
      others := [];
      for k := 0 to |calls|
        invariant Valid() && Apart(mine)
        invariant Owned(inbox.entries, mine) == Owned(old(inbox.entries), mine)
        invariant logged == old(logged) + others
        invariant k == 0 ==> inbox.entries == old(inbox.entries) && others == []
      {
        ghost var more := Perform(calls[k], mine);
        Assoc(old(logged), others, more);
        others := others + more;
      }
    }

    /**
     * Whatever hosts and other turns do meanwhile, a turn either logs the session's pending messages, in order
     * and once, or logs none of them and leaves every one of them in the queue as it was.
     */
    method StartTurn(session: string, calls: seq<Other>, appended: bool)
      returns (ok: bool, told: seq<CustomMessage>, ghost others: seq<nat>)
      requires Valid()
      modifies this`logged, this`open
      modifies inbox`next, inbox`bytes, inbox`entries, inbox`issued, inbox`delivered, inbox`discarded
      ensures Valid()
      ensures ok <==> appended && Unclaimed(old(inbox.entries), session)
      ensures logged == old(logged) + others + if ok then Ids(InSession(old(inbox.entries), session)) else []
      ensures told == if ok then MessagesOf(InSession(old(inbox.entries), session)) else []
      ensures !ok ==> forall e <- InSession(old(inbox.entries), session) :: e in inbox.entries
      ensures calls == [] ==> others == [] && (!ok ==> inbox.entries == old(inbox.entries))
    {
      others := [];
      ghost var es, issued := inbox.entries, inbox.issued;
      var claimed := inbox.Claim(session);
      if claimed.Err? {
        InSessionIn(inbox.entries, session);
        return false, [], others;
      }
      HeldMore(es, inbox.entries, issued, open, claimed.value.origins);
      others := Conclude(claimed.value, session, calls, appended, old(inbox.entries));
      ok := appended;
      told := if appended then claimed.value.messages else [];
    }

    method Conclude(claim: CustomClaim, session: string, calls: seq<Other>, appended: bool, ghost all: seq<Entry>)
      returns (ghost others: seq<nat>)
      requires Valid() && claim.inbox == inbox && claim.Live() && !claim.committed && Apart(claim.token)
      requires Unclaimed(all, session) && Unissued(all, claim.token)
      requires inbox.entries == MarkAll(all, session, claim.token)
      modifies this`logged, this`open, claim`committed
      modifies inbox`next, inbox`bytes, inbox`entries, inbox`issued, inbox`delivered, inbox`discarded
      ensures Valid()
      ensures logged == old(logged) + others + if appended then claim.origins else []
      ensures !appended ==> forall e <- InSession(all, session) :: e in inbox.entries
      ensures calls == [] ==> others == [] && (!appended ==> inbox.entries == all)
    {
      others := Interfere(calls, claim.token);
      if appended {
        Deliver(claim);
      } else {
        Abandon(claim, session, all);
      }
    }

    method Deliver(claim: CustomClaim)
      requires Valid() && claim.inbox == inbox && claim.Live() && Apart(claim.token)
      modifies this`logged, claim`committed, inbox`entries, inbox`bytes, inbox`delivered
      ensures Valid() && logged == old(logged) + claim.origins
    {
      ghost var es := inbox.entries;
      logged := logged + claim.origins;
      claim.Commit();
      HeldOn(es, inbox.entries, inbox.issued, inbox.issued, open, Some(claim.token));
      assert open - {claim.token} == open;
    }

    method Abandon(claim: CustomClaim, session: string, ghost all: seq<Entry>)
      requires Valid() && claim.inbox == inbox && !claim.committed && Apart(claim.token)
      requires Unclaimed(all, session) && Unissued(all, claim.token)
      requires Owned(inbox.entries, claim.token) == Owned(MarkAll(all, session, claim.token), claim.token)
      modifies inbox`entries
      ensures Valid()
      ensures forall e <- InSession(all, session) :: e in inbox.entries
      ensures old(inbox.entries) == MarkAll(all, session, claim.token) ==> inbox.entries == all
    {
      ghost var es := inbox.entries;
      GivenBack(all, inbox.entries, session, claim.token);
      claim.Drop();
      HeldOn(es, inbox.entries, inbox.issued, inbox.issued, open, Some(claim.token));
      assert open - {claim.token} == open;
    }
  }

  lemma {:induction false} InSessionIn(es: seq<Entry>, session: string)
    ensures forall e <- InSession(es, session) :: e in es && e.session == session
    decreases es
  {
    if es != [] {
      InSessionIn(es[1..], session);
    }
  }

  /** What a claim took is there again, as it was, once the claim is given back. */
  lemma GivenBack(all: seq<Entry>, now: seq<Entry>, session: string, token: nat)
    requires Unclaimed(all, session) && Unissued(all, token)
    requires Owned(now, token) == Owned(MarkAll(all, session, token), token)
    ensures forall e <- InSession(all, session) :: e in FreeAll(now, token)
    ensures now == MarkAll(all, session, token) ==> FreeAll(now, token) == all
  {
    InSessionIn(all, session);
    DropUndoesClaim(all, session, token);
    forall e <- InSession(all, session) ensures e in FreeAll(now, token) {
      var marked := Mark(e, session, token);
      MarkIn(all, session, token, e);
      OwnedIn(MarkAll(all, session, token), token, marked);
      OwnedIn(now, token, marked);
      FreeIn(now, token, marked);
    }
  }
}
