/**
 * The bit helpers of engine/core/util.hpp: `reverseBits`, `rotateLeft` and
 * `rotateRight`, templates over an unsigned integer type `T`. A value of
 * `T` is modelled as its `sizeof(T) * 8` bits, least significant first, so
 * one model covers every width; the shift, or and and of the source are
 * the operations on such words below.
 */
module Bits {

  /** An unsigned word: bit `i` is `w[i]`, bit 0 the least significant. */
  type Word = seq<bool>

  /** The zero word of width `n`. */
  function Zero(n: nat): (r: Word)
    ensures |r| == n && forall i :: 0 <= i < n ==> !r[i]
  {
    seq(n, i => false)
  }

  /** `v == 0`. */
  predicate IsZero(v: Word) {
    forall i :: 0 <= i < |v| ==> !v[i]
  }

  /** `v << n`: bits move up, zeros come in at the bottom, bits pushed past
      the top are lost. */
  function Shl(v: Word, n: nat): (r: Word)
    ensures |r| == |v| && forall i :: 0 <= i < |v| ==> r[i] == (n <= i && v[i - n])
  {
    seq(|v|, i requires 0 <= i < |v| => n <= i && v[i - n])
  }

  /** `v >> n` on an unsigned word: bits move down, zeros come in at the top. */
  function Shr(v: Word, n: nat): (r: Word)
    ensures |r| == |v| && forall i :: 0 <= i < |v| ==> r[i] == (i + n < |v| && v[i + n])
  {
    seq(|v|, i requires 0 <= i < |v| => i + n < |v| && v[i + n])
  }

  function Or(a: Word, b: Word): (r: Word)
    requires |a| == |b|
    ensures |r| == |a| && forall i :: 0 <= i < |a| ==> r[i] == (a[i] || b[i])
  {
    seq(|a|, i requires 0 <= i < |a| => a[i] || b[i])
  }

  /** `v & 1`. */
  function LowBit(v: Word): (r: Word)
    ensures |r| == |v| && forall i :: 0 <= i < |v| ==> r[i] == (i == 0 && v[0])
  {
    seq(|v|, i requires 0 <= i < |v| => i == 0 && v[0])
  }

  /** The number of set bits. */
  function PopCount(v: Word): nat {
    multiset(v)[true]
  }

  // ---------------------------------------------------------------------
  // reverseBits
  // ---------------------------------------------------------------------

  /** The word read backwards: bit `i` of the result is bit `|v| - 1 - i`. */
  function Reverse(v: Word): (r: Word)
    ensures |r| == |v| && forall i :: 0 <= i < |v| ==> r[i] == v[|v| - 1 - i]
  {
    seq(|v|, i requires 0 <= i < |v| => v[|v| - 1 - i])
  }

  /** After `k` rounds of `reverseBits`, the low `k` bits of `r` hold bits
      `k` down to 1 of the argument and the rest holds the argument shifted
      up by `k`. */
  predicate Reversing(v0: Word, r: Word, k: nat) {
    && k < |v0| && |r| == |v0|
    && forall i :: 0 <= i < |v0| ==> r[i] == (if i < k then v0[k - i] else v0[i - k])
  }

  /** `reverseBits` on an unsigned type: `r` starts as `v` itself; each
      round shifts `r` up, brings in the next bit of `v` and counts `s`
      down, until the remaining bits of `v` are all zero; the final shift
      by `s` moves the reversed bits to the top and drops what is left of
      the starting copy above them. */
  method ReverseBits(v0: Word) returns (r: Word)
    requires |v0| > 0
    ensures |r| == |v0| && forall i :: 0 <= i < |v0| ==> r[i] == v0[|v0| - 1 - i]
    ensures r == Reverse(v0)
  {
    var width := |v0|;
    var v := v0;
    r := v;
    var s: nat := width - 1;
    v := Shr(v, 1);
    ghost var k: nat := 0;
    while !IsZero(v)
      invariant k + s == width - 1
      invariant v == Shr(v0, k + 1)
      invariant Reversing(v0, r, k)
      decreases s
    {
      ReverseRound(v0, r, k);
      r := Shl(r, 1);
      r := Or(r, LowBit(v));
      k := k + 1;
      s := s - 1;
      v := Shr(v, 1);
      ShrShr(v0, k);
    }
    ReverseLast(v0, r, k, s);
    r := Shl(r, s);
  }

  /** Shifting down by one more. */
  lemma ShrShr(v: Word, k: nat)
    ensures Shr(Shr(v, k), 1) == Shr(v, k + 1)
  {
    assert forall i :: 0 <= i < |v| ==> Shr(Shr(v, k), 1)[i] == Shr(v, k + 1)[i];
  }

  /** One round of `reverseBits` while bits remain. */
  lemma ReverseRound(v0: Word, r: Word, k: nat)
    requires Reversing(v0, r, k) && !IsZero(Shr(v0, k + 1))
    ensures k + 1 < |v0| && |Shl(r, 1)| == |LowBit(Shr(v0, k + 1))|
    ensures Reversing(v0, Or(Shl(r, 1), LowBit(Shr(v0, k + 1))), k + 1)
  {
  }

  /** The final shift of `reverseBits`, once no bits remain. */
  lemma ReverseLast(v0: Word, r: Word, k: nat, s: nat)
    requires Reversing(v0, r, k) && k + s == |v0| - 1 && IsZero(Shr(v0, k + 1))
    ensures Shl(r, s) == Reverse(v0)
  {
    forall i | 0 <= i < |v0| ensures Shl(r, s)[i] == Reverse(v0)[i] {
      if i < s {
        assert Shr(v0, k + 1)[|v0| - 1 - i - k - 1] == v0[|v0| - 1 - i];
      }
    }
  }

  /** Reversing twice gives the word back. */
  lemma ReverseInvolution(v: Word)
    ensures Reverse(Reverse(v)) == v
  {
    assert forall i :: 0 <= i < |v| ==> Reverse(Reverse(v))[i] == v[i];
  }

  /** Zero reversed is zero. */
  lemma ReverseZero(n: nat)
    ensures Reverse(Zero(n)) == Zero(n)
  {
    assert forall i :: 0 <= i < n ==> Reverse(Zero(n))[i] == Zero(n)[i];
  }

  // ---------------------------------------------------------------------
  // rotateLeft, rotateRight
  // ---------------------------------------------------------------------

  /** `rotateLeft(v, shift)`: `(v << shift) | (v >> (width - shift))`. Bit
      `i` comes from `shift` places below, wrapping around. A negative
      shift, or one beyond the width, makes one of the two shifts negative,
      which is undefined in the source and is excluded. Shift 0 and shift
      `width` are defined for types narrower than `int`, which are promoted
      before shifting, and give the word back (`RotateEnds`). */
  function RotateLeft(v: Word, shift: nat): (r: Word)
    requires shift <= |v|
    ensures |r| == |v|
    ensures forall i :: 0 <= i < |v| ==> r[i] == (if shift <= i then v[i - shift] else v[i + |v| - shift])
  {
    Or(Shl(v, shift), Shr(v, |v| - shift))
  }

  /** `rotateRight(v, shift)`: `(v >> shift) | (v << (width - shift))`. Bit
      `i` comes from `shift` places above, wrapping around. */
  function RotateRight(v: Word, shift: nat): (r: Word)
    requires shift <= |v|
    ensures |r| == |v|
    ensures forall i :: 0 <= i < |v| ==> r[i] == (if i + shift < |v| then v[i + shift] else v[i + shift - |v|])
  {
    Or(Shr(v, shift), Shl(v, |v| - shift))
  }

  /** Rotating right undoes rotating left by the same amount, and the other
      way round. */
  lemma RotateRoundTrip(v: Word, shift: nat)
    requires shift <= |v|
    ensures RotateRight(RotateLeft(v, shift), shift) == v
    ensures RotateLeft(RotateRight(v, shift), shift) == v
  {
    var l := RotateRight(RotateLeft(v, shift), shift);
    var r := RotateLeft(RotateRight(v, shift), shift);
    assert forall i :: 0 <= i < |v| ==> l[i] == v[i];
    assert forall i :: 0 <= i < |v| ==> r[i] == v[i];
  }

  /** A left rotation is the right rotation by the rest of the width. */
  lemma RotateLeftIsRight(v: Word, shift: nat)
    requires shift <= |v|
    ensures RotateLeft(v, shift) == RotateRight(v, |v| - shift)
  {
    assert forall i :: 0 <= i < |v| ==> RotateLeft(v, shift)[i] == RotateRight(v, |v| - shift)[i];
  }

  /** A left rotation moves the top `shift` bits to the bottom. */
  lemma RotateLeftSwaps(v: Word, shift: nat)
    requires shift <= |v|
    ensures RotateLeft(v, shift) == v[|v| - shift..] + v[..|v| - shift]
  {
    var w := v[|v| - shift..] + v[..|v| - shift];
    assert forall i :: 0 <= i < |v| ==> RotateLeft(v, shift)[i] == w[i];
  }

  /** Rotations keep the number of set bits. */
  lemma RotatePopCount(v: Word, shift: nat)
    requires shift <= |v|
    ensures PopCount(RotateLeft(v, shift)) == PopCount(v)
    ensures PopCount(RotateRight(v, shift)) == PopCount(v)
  {
    RotateLeftPopCount(v, shift);
    RotateLeftIsRight(v, |v| - shift);
    RotateLeftPopCount(v, |v| - shift);
  }

  lemma RotateLeftPopCount(v: Word, shift: nat)
    requires shift <= |v|
    ensures PopCount(RotateLeft(v, shift)) == PopCount(v)
  {
    RotateLeftSwaps(v, shift);
    SwapMultiset(v, |v| - shift);
  }

  /** Shift 0 and shift `width` leave the word as it is: the shift by the
      full width brings in only zeros, which the other half of the `|`
      ignores. */
  lemma RotateEnds(v: Word)
    ensures RotateLeft(v, 0) == v && RotateLeft(v, |v|) == v
    ensures RotateRight(v, 0) == v && RotateRight(v, |v|) == v
  {
    assert forall i :: 0 <= i < |v| ==> RotateLeft(v, |v|)[i] == v[i];
    assert forall i :: 0 <= i < |v| ==> RotateRight(v, |v|)[i] == v[i];
  }

  lemma SwapMultiset(v: Word, n: nat)
    requires n <= |v|
    ensures multiset(v[n..] + v[..n]) == multiset(v)
  {
    assert v == v[..n] + v[n..];
  }
}
