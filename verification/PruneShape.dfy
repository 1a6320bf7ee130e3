/** What pruning removes, keeps and refuses, for any token counter. */
module PruneShape {
  import opened Wrappers
  import opened Transcript
  import opened Units
  import opened Pruning

  predicate AnyRemovable(units: seq<Unit>) {
    exists i :: 0 <= i < |units| && units[i].removable
  }

  /** The protected removable units are a suffix of the removable ones. */
  predicate ProtectedFrom(units: seq<Unit>, guarded: seq<bool>, cut: nat) {
    && |units| == |guarded|
    && cut <= |units|
    && forall i :: 0 <= i < |units| ==> (guarded[i] <==> !units[i].removable || cut <= i)
  }

  /** Some removable unit at or after the cut. */
  predicate KeepsNewest(units: seq<Unit>, cut: nat) {
    exists i :: cut <= i < |units| && units[i].removable
  }

  lemma {:induction false} ProtectedSuffix(
    units: seq<Unit>, costs: seq<nat>, preserve: nat, recent: nat, newest: bool, closed: bool)
    returns (cut: nat)
    requires |units| == |costs|
    requires closed ==> !newest
    ensures ProtectedFrom(units, Protect(units, costs, preserve, recent, newest, closed), cut)
    ensures closed ==> cut == |units|
    ensures newest && AnyRemovable(units) ==> KeepsNewest(units, cut)
  {
    if units == [] {
      cut := 0;
    } else {
      var last := |units| - 1;
      var older := units[..last];
      if !units[last].removable {
        cut := ProtectedSuffix(older, costs[..last], preserve, recent, newest, closed);
        if closed {
          cut := |units|;
        }
        if newest && AnyRemovable(units) {
          var i :| 0 <= i < |units| && units[i].removable;
          assert older[i].removable;
          var j :| cut <= j < |older| && older[j].removable;
          assert units[j].removable;
        }
      } else if newest || (!closed && SatAdd(recent, costs[last]) <= preserve) {
        cut := ProtectedSuffix(older, costs[..last], preserve, SatAdd(recent, costs[last]), false, closed);
      } else {
        cut := ProtectedSuffix(older, costs[..last], preserve, recent, newest, true);
        cut := |units|;
      }
    }
  }

  predicate Ascending(s: seq<nat>) {
    forall i, j :: 0 <= i < j < |s| ==> s[i] < s[j]
  }

  lemma {:induction false} CandidatesExact(units: seq<Unit>, guarded: seq<bool>, base: nat)
    requires |units| == |guarded|
    ensures Ascending(Candidates(units, guarded, base))
    ensures forall c :: c in Candidates(units, guarded, base) <==>
      base <= c < base + |units| && units[c - base].removable && !guarded[c - base]
  {
    if units != [] {
      var rest := Candidates(units[1..], guarded[1..], base + 1);
      CandidatesExact(units[1..], guarded[1..], base + 1);
      var all := Candidates(units, guarded, base);
      forall c ensures c in all <==> base <= c < base + |units| && units[c - base].removable && !guarded[c - base] {
        if c > base {
          assert c in all <==> c in rest;
        } else {
          assert c !in rest;
        }
      }
      if units[0].removable && !guarded[0] {
        assert all == [base] + rest;
        forall i, j | 0 <= i < j < |all| ensures all[i] < all[j] {
          assert all[j] == rest[j - 1] && rest[j - 1] in rest;
        }
      } else {
        assert all == rest;
      }
    }
  }

  /** Removing the first k candidates removes exactly the removable units before some cut. */
  lemma FirstCandidatesAreOldest(units: seq<Unit>, guarded: seq<bool>, cut: nat, k: nat) returns (upTo: nat)
    requires ProtectedFrom(units, guarded, cut)
    requires k <= |Candidates(units, guarded, 0)|
    ensures upTo <= cut && OldestUpTo(units, MarkFirst(|units|, Candidates(units, guarded, 0), k), upTo)
  {
    var cs := Candidates(units, guarded, 0);
    CandidatesExact(units, guarded, 0);
    if k == |cs| {
      upTo := cut;
      assert cs[..k] == cs;
    } else {
      upTo := cs[k];
      assert cs[k] in cs;
      forall i | 0 <= i < |units| ensures i in cs[..k] <==> units[i].removable && i < upTo {
        if units[i].removable && i < upTo {
          assert i in cs;
          var j :| 0 <= j < |cs| && cs[j] == i;
          assert j < k;
          assert cs[..k][j] == i;
        }
        if i in cs[..k] {
          var j :| 0 <= j < k && cs[..k][j] == i;
          assert cs[j] in cs && cs[j] < cs[k];
        }
      }
    }
  }

  /** The whole pruning result, read off the transcript: which units are gone and which remain. */
  predicate PrunedAt(ms: seq<Message>, c: Compaction, removed: seq<bool>, cut: nat) {
    && OldestUpTo(UnitsFrom(ms, 0), removed, cut)
    && c.messages == Rebuild(ms, UnitsFrom(ms, 0), removed)
    && c.removedMessages == RemovedCount(UnitsFrom(ms, 0), removed)
    && (AnyRemovable(UnitsFrom(ms, 0)) ==> KeepsNewest(UnitsFrom(ms, 0), cut))
  }

  lemma {:induction false} NoneCounted(units: seq<Unit>, removed: seq<bool>)
    requires |units| == |removed| && forall i :: 0 <= i < |removed| ==> !removed[i]
    ensures RemovedCount(units, removed) == 0
  {
    if units != [] {
      NoneCounted(units[1..], removed[1..]);
    }
  }

  /**
   Pruning deletes a run of the oldest removable units and nothing else: what is kept of the removable
   units is a suffix of them, never empty when there are any.
   */
  lemma PruneKeepsSuffix(m: Measure, preserve: nat, ms: seq<Message>) returns (removed: seq<bool>, cut: nat)
    requires Prune(m, preserve, ms).Ok?
    ensures PrunedAt(ms, Prune(m, preserve, ms).value, removed, cut)
    ensures forall i :: 0 <= i < |removed| && removed[i] ==> i in PlanFor(m, preserve, ms).candidates
  {
    var units := UnitsFrom(ms, 0);
    if Count(m, ms) <= m.target {
      removed, cut := seq(|units|, i => false), 0;
      NothingRemoved(ms, 0, removed, false, RemovedCount(units, removed));
      NoneCounted(units, removed);
      assert ms[0..] == ms;
    } else {
      var costs := UnitCosts(m, ms, units);
      var guarded := Protect(units, costs, preserve, 0, true, false);
      var k := Chosen(m, preserve, ms).value;
      var mandatory := ProtectedSuffix(units, costs, preserve, 0, true, false);
      removed := MarkFirst(|units|, Candidates(units, guarded, 0), k);
      cut := FirstCandidatesAreOldest(units, guarded, mandatory, k);
      if AnyRemovable(units) {
        var i :| mandatory <= i < |units| && units[i].removable;
        assert cut <= i;
      }
    }
  }

  /** A pruned transcript measures what the result says, which is within the target. */
  lemma PruneMeetsTarget(m: Measure, preserve: nat, ms: seq<Message>)
    requires Prune(m, preserve, ms).Ok?
    ensures
      var c := Prune(m, preserve, ms).value;
      && Count(m, c.messages) == c.after <= m.target
      && c.before == Count(m, ms)
      && (c.messages == ms || c.after < c.before)
  {
  }

  /** Every system message survives in order; at most one message, the marker, is new. */
  lemma PruneKeepsSystem(m: Measure, preserve: nat, ms: seq<Message>) returns (at: nat)
    requires Prune(m, preserve, ms).Ok?
    ensures
      var c := Prune(m, preserve, ms).value;
      exists due :: Marked(SystemMessages(c.messages), SystemMessages(ms), due, at, c.removedMessages)
  {
    var removed, cut := PruneKeepsSuffix(m, preserve, ms);
    at := SystemMessagesKept(ms, removed);
  }

  /** Pruning never refuses while deleting every unprotected unit would fit. */
  lemma PruneNeverGivesUp(m: Measure, preserve: nat, ms: seq<Message>)
    requires m.target > 0
    requires
      var plan := PlanFor(m, preserve, ms);
      Count(m, Without(plan, |plan.candidates|)) <= m.target
    ensures Prune(m, preserve, ms).Ok?
  {
  }
}
