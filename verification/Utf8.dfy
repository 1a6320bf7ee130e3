/** Well-formed UTF-8 (Unicode standard, section 3.9, table 3-7) and character boundaries. */
module Utf8 {
  newtype byte = x: int | 0 <= x < 256

  predicate Continuation(b: byte) {
    0x80 <= b <= 0xBF
  }

  predicate ContinuedBy(s: seq<byte>, from: nat, count: nat) {
    from + count <= |s| && forall i :: from <= i < from + count ==> Continuation(s[i])
  }

  /** The length of the well-formed character a text starts with, or 0. */
  function CharLen(s: seq<byte>): (n: nat)
    ensures n <= |s| && n <= 4
    ensures 0 < n ==> forall i :: 1 <= i < n ==> Continuation(s[i])
    ensures 0 < n ==> !Continuation(s[0])
  {
    if s == [] then 0
    else if s[0] < 0x80 then 1
    else if 0xC2 <= s[0] <= 0xDF then if ContinuedBy(s, 1, 1) then 2 else 0
    else if 0xE0 <= s[0] <= 0xEF then
      if ContinuedBy(s, 1, 2) && (s[0] == 0xE0 ==> s[1] >= 0xA0) && (s[0] == 0xED ==> s[1] <= 0x9F) then 3 else 0
    else if 0xF0 <= s[0] <= 0xF4 then
      if ContinuedBy(s, 1, 3) && (s[0] == 0xF0 ==> s[1] >= 0x90) && (s[0] == 0xF4 ==> s[1] <= 0x8F) then 4 else 0
    else 0
  }

  predicate Valid(s: seq<byte>) {
    s == [] || (CharLen(s) > 0 && Valid(s[CharLen(s)..]))
  }

  /** Whether a text may be cut before position `i`. */
  predicate Boundary(s: seq<byte>, i: nat) {
    i == 0 || i == |s| || (i < |s| && !Continuation(s[i]))
  }

  /** A character is read the same way whatever follows it. */
  lemma CharLenPrefix(a: seq<byte>, b: seq<byte>)
    requires 0 < CharLen(a + b) <= |a| || 0 < CharLen(a)
    ensures CharLen(a + b) == CharLen(a)
  {
    var c := a + b;
    assert forall i :: 0 <= i < |a| ==> c[i] == a[i];
    assert a != [] && c[0] == a[0];
  }

  /** Text that ends in an ASCII byte can be validated apart from what follows. */
  lemma {:induction false} ValidConcat(a: seq<byte>, b: seq<byte>)
    requires a == [] || a[|a| - 1] < 0x80
    ensures Valid(a + b) <==> Valid(a) && Valid(b)
    decreases |a|
  {
    if a == [] {
      assert a + b == b;
    } else {
      var n := CharLen(a + b);
      assert (a + b)[|a| - 1] == a[|a| - 1] && (a + b)[0] == a[0];
      assert n > 0 ==> n <= |a|;
      if n > 0 || CharLen(a) > 0 {
        CharLenPrefix(a, b);
        assert (a + b)[n..] == a[n..] + b;
        ValidConcat(a[n..], b);
      }
    }
  }

  /** Valid texts may be joined. */
  lemma {:induction false} ValidAppend(a: seq<byte>, b: seq<byte>)
    requires Valid(a) && Valid(b)
    ensures Valid(a + b)
    decreases |a|
  {
    if a == [] {
      assert a + b == b;
    } else {
      CharLenPrefix(a, b);
      var n := CharLen(a);
      assert (a + b)[n..] == a[n..] + b;
      ValidAppend(a[n..], b);
    }
  }

  /** Cutting valid text at a boundary leaves two valid texts. */
  lemma {:induction false} CutValid(s: seq<byte>, i: nat)
    requires Valid(s) && i <= |s| && Boundary(s, i)
    ensures Valid(s[..i]) && Valid(s[i..])
    decreases |s|
  {
    if i == 0 {
      assert s[..i] == [] && s[i..] == s;
    } else {
      var n := CharLen(s);
      assert n <= i;
      assert Boundary(s[n..], i - n);
      CutValid(s[n..], i - n);
      CutBehind(s, n, i);
    }
  }

  lemma CutBehind(s: seq<byte>, n: nat, i: nat)
    requires 0 < n == CharLen(s) <= i <= |s| && Valid(s[n..][..i - n]) && Valid(s[n..][i - n..])
    ensures Valid(s[..i]) && Valid(s[i..])
  {
    assert s[..i] + s[i..] == s;
    CharLenPrefix(s[..i], s[i..]);
    assert s[..i][n..] == s[n..][..i - n];
    assert s[n..][i - n..] == s[i..];
  }

  /** A valid text that begins a valid text ends at a boundary of it, and what follows is valid too. */
  lemma {:induction false} ValidCut(s: seq<byte>, i: nat)
    requires Valid(s) && i <= |s| && Valid(s[..i])
    ensures Boundary(s, i) && Valid(s[i..])
    decreases i
  {
    if i > 0 {
      assert s == s[..i] + s[i..];
      CharLenPrefix(s[..i], s[i..]);
      var n := CharLen(s[..i]);
      assert s[..i][n..] == s[n..][..i - n] && s[n..][i - n..] == s[i..];
      ValidCut(s[n..], i - n);
      assert i < |s| ==> s[i] == s[i..][0];
    } else {
      assert s[0..] == s;
    }
  }

  /** In valid text a boundary is never more than three bytes back. */
  lemma {:induction false} BoundaryNear(s: seq<byte>, i: nat) returns (j: nat)
    requires Valid(s) && i <= |s|
    ensures j <= i <= j + 3 && Boundary(s, j)
    decreases |s|
  {
    var n := CharLen(s);
    if i < n || s == [] {
      j := 0;
    } else {
      j := BoundaryNear(s[n..], i - n);
      if j == 0 && n < |s| {
        assert !Continuation(s[n..][0]);
      }
      j := j + n;
    }
  }

  // ----- the encoding of characters (RFC 3629, section 3) -----

  /** A Unicode scalar value: a code point that is not a surrogate. */
  predicate Scalar(c: int) {
    0 <= c < 0xD800 || 0xE000 <= c < 0x11_0000
  }

  /** The shortest form of a scalar value, six bits to each byte after the first. */
  function Encode(c: int): seq<byte>
    requires Scalar(c)
  {
    if c < 0x80 then [c as byte]
    else if c < 0x800 then [(0xC0 + c / 64) as byte, (0x80 + c % 64) as byte]
    else if c < 0x1_0000 then [(0xE0 + c / 4096) as byte, (0x80 + c / 64 % 64) as byte, (0x80 + c % 64) as byte]
    else [(0xF0 + c / 262144) as byte, (0x80 + c / 4096 % 64) as byte, (0x80 + c / 64 % 64) as byte,
          (0x80 + c % 64) as byte]
  }

  predicate Scalars(cs: seq<int>) {
    forall c <- cs :: Scalar(c)
  }

  function EncodeAll(cs: seq<int>): seq<byte>
    requires Scalars(cs)
  {
    if cs == [] then [] else Encode(cs[0]) + EncodeAll(cs[1..])
  }

  /** The scalar value a well-formed character stands for. */
  function Decode(s: seq<byte>): int
    requires CharLen(s) > 0
  {
    match CharLen(s)
    case 1 => s[0] as int
    case 2 => 64 * (s[0] as int - 0xC0) + (s[1] as int - 0x80)
    case 3 => 4096 * (s[0] as int - 0xE0) + 64 * (s[1] as int - 0x80) + (s[2] as int - 0x80)
    case _ =>
      262144 * (s[0] as int - 0xF0) + 4096 * (s[1] as int - 0x80) + 64 * (s[2] as int - 0x80) + (s[3] as int - 0x80)
  }

  /** A text begins with a well-formed character exactly when it begins with the encoding of one scalar value. */
  lemma CharIff(s: seq<byte>)
    ensures CharLen(s) > 0 ==> Scalar(Decode(s)) && Encode(Decode(s)) == s[..CharLen(s)]
    ensures forall c :: Scalar(c) && Encode(c) <= s ==> CharLen(s) == |Encode(c)|
  {
    if CharLen(s) > 0 {
      DecodeEncode(s);
    }
    forall c | Scalar(c) && Encode(c) <= s ensures CharLen(s) == |Encode(c)| {
      EncodeLen(s, c);
    }
  }

  lemma DecodeEncode(s: seq<byte>)
    requires CharLen(s) > 0
    ensures Scalar(Decode(s)) && Encode(Decode(s)) == s[..CharLen(s)]
  {
    var n, c := CharLen(s), Decode(s);
    if n == 2 {
      Digits(s[0] as int - 0xC0, s[1] as int - 0x80);
    } else if n == 3 {
      Digits(s[0] as int - 0xE0, s[1] as int - 0x80);
      Digits(64 * (s[0] as int - 0xE0) + (s[1] as int - 0x80), s[2] as int - 0x80);
      assert c / 64 / 64 == c / 4096;
    } else if n == 4 {
      DecodeEncode4(s, s[0] as int - 0xF0, s[1] as int - 0x80, s[2] as int - 0x80, s[3] as int - 0x80);
    }
  }

  lemma Digits(high: int, low: int)
    requires 0 <= high && 0 <= low < 64
    ensures (64 * high + low) / 64 == high && (64 * high + low) % 64 == low
  {}

  lemma DecodeEncode4(s: seq<byte>, p: int, q: int, r: int, t: int)
    requires CharLen(s) == 4
    requires s[0] as int == p + 0xF0 && s[1] as int == q + 0x80 && s[2] as int == r + 0x80 && s[3] as int == t + 0x80
    ensures Scalar(Decode(s)) && Encode(Decode(s)) == s[..4]
  {
    var c := 64 * (64 * (64 * p + q) + r) + t;
    assert c == Decode(s);
    Digits(p, q);
    Digits(64 * p + q, r);
    Digits(64 * (64 * p + q) + r, t);
    assert c / 4096 == 64 * p + q && c / 262144 == p;
  }

  lemma EncodeLen(s: seq<byte>, c: int)
    requires Scalar(c) && Encode(c) <= s
    ensures CharLen(s) == |Encode(c)|
  {
  }

  /** Valid texts are exactly the encodings of sequences of scalar values. */
  lemma {:induction false} ValidIff(s: seq<byte>)
    ensures Valid(s) <==> exists cs :: Scalars(cs) && EncodeAll(cs) == s
  {
    if Valid(s) {
      var cs := Read(s);
    }
    if cs :| Scalars(cs) && EncodeAll(cs) == s {
      EncodedValid(cs);
    }
  }

  lemma {:induction false} Read(s: seq<byte>) returns (cs: seq<int>)
    requires Valid(s)
    ensures Scalars(cs) && EncodeAll(cs) == s
    decreases |s|
  {
    cs := [];
    if s != [] {
      var c, n := ReadFirst(s);
      var rest := Read(s[n..]);
      cs := ReadOne(s[..n], c, s[n..], rest);
    }
  }

  lemma ReadFirst(s: seq<byte>) returns (c: int, n: nat)
    requires Valid(s) && s != []
    ensures Scalar(c) && 0 < n <= |s| && Encode(c) == s[..n] && Valid(s[n..])
    ensures s[..n] + s[n..] == s
  {
    c, n := Decode(s), CharLen(s);
    CharIff(s);
  }

  lemma ReadOne(first: seq<byte>, c: int, later: seq<byte>, rest: seq<int>) returns (cs: seq<int>)
    requires Scalar(c) && Encode(c) == first && Scalars(rest) && EncodeAll(rest) == later
    ensures Scalars(cs) && EncodeAll(cs) == first + later
  {
    cs := [c] + rest;
    assert cs[1..] == rest && forall x <- cs :: x == c || x in rest;
  }

  lemma {:induction false} EncodedValid(cs: seq<int>)
    requires Scalars(cs)
    ensures Valid(EncodeAll(cs))
  {
    if cs != [] {
      var first, rest := Encode(cs[0]), EncodeAll(cs[1..]);
      EncodedValid(cs[1..]);
      CharIff(first + rest);
      assert (first + rest)[|first|..] == rest;
    }
  }
}
