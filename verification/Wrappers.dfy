/** Failure-carrying values and bounded machine arithmetic shared by every module. */
module Wrappers {
  datatype Option<+T> = None | Some(value: T)

  datatype Result<+T, +E> = Ok(value: T) | Err(error: E)

  /** The largest `usize`/`u64` on the 64-bit hosts the runtime targets. */
  const WORD_MAX: nat := 0xFFFF_FFFF_FFFF_FFFF

  /** The largest `u32`. */
  const U32_MAX: nat := 0xFFFF_FFFF

  function Min(a: nat, b: nat): nat {
    if a <= b then a else b
  }

  function Max(a: nat, b: nat): nat {
    if a <= b then b else a
  }

  /** `saturating_add` on a 64-bit word. */
  function SatAdd(a: nat, b: nat): nat {
    Min(a + b, WORD_MAX)
  }

  /** `saturating_sub`. */
  function SatSub(a: nat, b: nat): nat {
    if a <= b then 0 else a - b
  }

  lemma Assoc<T>(a: seq<T>, b: seq<T>, c: seq<T>)
    ensures (a + b) + c == a + (b + c)
  {}

  lemma CutConcat<T>(a: seq<T>, b: seq<T>, k: nat)
    requires k <= |a|
    ensures (a + b)[..k] == a[..k]
    ensures (a + b)[k..] == a[k..] + b
  {}

  /** A sequence without the element at one position. */
  function Removed<X>(xs: seq<X>, i: nat): (r: seq<X>)
    requires i < |xs|
    ensures |r| == |xs| - 1
  {
    xs[..i] + xs[i + 1..]
  }

  lemma RemovedStep<X>(xs: seq<X>, i: nat)
    requires i < |xs|
    ensures i == 0 ==> Removed(xs, i) == xs[1..]
    ensures i > 0 ==>
      Removed(xs, i) == [xs[0]] + Removed(xs[1..], i - 1) && Removed(xs, i)[1..] == Removed(xs[1..], i - 1)
  {}

  lemma MultisetAppend<X>(xs: seq<X>, x: X)
    ensures multiset(xs + [x]) == multiset(xs) + multiset{x}
  {}

  lemma MultisetRemove<X>(xs: seq<X>, i: nat)
    requires i < |xs|
    ensures multiset(xs) == multiset(Removed(xs, i)) + multiset{xs[i]}
  {
    assert xs == xs[..i] + [xs[i]] + xs[i + 1..];
  }
}
