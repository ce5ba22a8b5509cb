/**
 * The string helpers of engine/core/string.hpp: ASCII case mapping
 * (`to_lower`, `to_upper`), the prefix test `starts_with`, and the 64-bit
 * FNV-1 hash that `std::hash<String>` computes over a string's bytes.
 * Case mapping follows `tolower`/`toupper` in the "C" locale: only the
 * ASCII letters change.
 */
module Strings {

  predicate IsUpper(c: char) { 'A' <= c <= 'Z' }

  predicate IsLower(c: char) { 'a' <= c <= 'z' }

  /** The distance between an upper-case ASCII letter and its lower-case form. */
  const CaseGap: int := 'a' as int - 'A' as int

  function LowerChar(c: char): char {
    if IsUpper(c) then (c as int + CaseGap) as char else c
  }

  function UpperChar(c: char): char {
    if IsLower(c) then (c as int - CaseGap) as char else c
  }

  // ---------------------------------------------------------------------
  // to_lower, to_upper
  // ---------------------------------------------------------------------

  /** `to_lower`: a copy with every upper-case letter replaced by its
      lower-case form; no upper-case letter remains and nothing else
      changes. */
  function ToLower(s: string): (r: string)
    ensures |r| == |s|
    ensures forall i :: 0 <= i < |s| ==> !IsUpper(r[i])
    ensures forall i :: 0 <= i < |s| ==> r[i] == s[i] || (IsUpper(s[i]) && r[i] as int == s[i] as int + CaseGap)
  {
    if |s| == 0 then [] else [LowerChar(s[0])] + ToLower(s[1..])
  }

  /** `to_upper`: a copy with every lower-case letter replaced by its
      upper-case form; no lower-case letter remains and nothing else
      changes. */
  function ToUpper(s: string): (r: string)
    ensures |r| == |s|
    ensures forall i :: 0 <= i < |s| ==> !IsLower(r[i])
    ensures forall i :: 0 <= i < |s| ==> r[i] == s[i] || (IsLower(s[i]) && r[i] as int == s[i] as int - CaseGap)
  {
    if |s| == 0 then [] else [UpperChar(s[0])] + ToUpper(s[1..])
  }

  /** Lowering twice is lowering once. */
  lemma ToLowerIdempotent(s: string)
    ensures ToLower(ToLower(s)) == ToLower(s)
  {
    var once := ToLower(s);
    assert forall i :: 0 <= i < |s| ==> ToLower(once)[i] == once[i];
  }

  /** Raising twice is raising once. */
  lemma ToUpperIdempotent(s: string)
    ensures ToUpper(ToUpper(s)) == ToUpper(s)
  {
    var once := ToUpper(s);
    assert forall i :: 0 <= i < |s| ==> ToUpper(once)[i] == once[i];
  }

  /** Lowering forgets an earlier raising: both sides agree letter for
      letter. */
  lemma ToLowerOfToUpper(s: string)
    ensures ToLower(ToUpper(s)) == ToLower(s)
  {
    var up := ToUpper(s);
    forall i | 0 <= i < |s| ensures ToLower(up)[i] == ToLower(s)[i] {
      if IsLower(s[i]) {
        assert IsUpper(up[i]);
      }
    }
  }

  /** Raising forgets an earlier lowering. */
  lemma ToUpperOfToLower(s: string)
    ensures ToUpper(ToLower(s)) == ToUpper(s)
  {
    var low := ToLower(s);
    forall i | 0 <= i < |s| ensures ToUpper(low)[i] == ToUpper(s)[i] {
      if IsUpper(s[i]) {
        assert IsLower(low[i]);
      }
    }
  }

  // ---------------------------------------------------------------------
  // starts_with
  // ---------------------------------------------------------------------

  /** `starts_with`: `compare(0, |prefix|, prefix) == 0`, where `compare`
      clamps the compared part of `s` to what `s` holds. */
  function StartsWith(s: string, prefix: string): (b: bool)
    ensures b <==> |prefix| <= |s| && s[..|prefix|] == prefix
  {
    var n := if |prefix| <= |s| then |prefix| else |s|;
    s[..n] == prefix
  }

  /** A string starts with a prefix exactly when it is the prefix followed
      by something. */
  lemma StartsWithAppend(s: string, prefix: string)
    ensures StartsWith(s, prefix) <==> exists rest :: s == prefix + rest
  {
    if StartsWith(s, prefix) {
      assert s == prefix + s[|prefix|..];
    }
    if exists rest :: s == prefix + rest {
      var rest :| s == prefix + rest;
      assert s[..|prefix|] == prefix;
    }
  }

  /** Every string starts with the empty string, and none starts with a
      longer one. */
  lemma StartsWithBounds(s: string, prefix: string)
    ensures StartsWith(s, [])
    ensures |prefix| > |s| ==> !StartsWith(s, prefix)
  {
  }

  // ---------------------------------------------------------------------
  // FNV-1 hash
  // ---------------------------------------------------------------------

  const FnvOffsetBasis: bv64 := 0xcbf2_9ce4_8422_2325

  const FnvPrime: bv64 := 0x0000_0100_0000_01b3

  /** One byte folded in: multiply (modulo 2^64), then xor. */
  function FnvStep(h: bv64, b: bv8): bv64 {
    (h * FnvPrime) ^ (b as bv64)
  }

  /** The bytes folded into `h`, first byte first. */
  function Fold(h: bv64, bytes: seq<bv8>): bv64 {
    if |bytes| == 0 then h else FnvStep(Fold(h, bytes[..|bytes| - 1]), bytes[|bytes| - 1])
  }

  /** The bytes the C string sees: everything before the first NUL. */
  function UpToNul(bytes: seq<bv8>): (r: seq<bv8>)
    ensures |r| <= |bytes| && r == bytes[..|r|]
    ensures forall k :: 0 <= k < |r| ==> r[k] != 0
    ensures |r| < |bytes| ==> bytes[|r|] == 0
  {
    if |bytes| == 0 || bytes[0] == 0 then [] else [bytes[0]] + UpToNul(bytes[1..])
  }

  /** The hash the fold defines. */
  function HashOf(bytes: seq<bv8>): bv64 {
    Fold(FnvOffsetBasis, UpToNul(bytes))
  }

  /** `std::hash<String>`: walks the C string up to its NUL terminator,
      folding each byte in. */
  method Hash(bytes: seq<bv8>) returns (h: bv64)
    ensures h == HashOf(bytes)
  {
    h := FnvOffsetBasis;
    var i := 0;
    while i < |bytes| && bytes[i] != 0
      invariant i <= |UpToNul(bytes)|
      invariant h == Fold(FnvOffsetBasis, bytes[..i])
    {
      assert bytes[..i + 1][..i] == bytes[..i];
      h := FnvStep(h, bytes[i]);
      i := i + 1;
    }
    assert bytes[..i] == UpToNul(bytes);
  }

  /** The empty string hashes to the offset basis. */
  lemma HashOfEmpty()
    ensures HashOf([]) == FnvOffsetBasis
  {
  }

  /** The published FNV-1 test vector for the one-byte string "a". */
  lemma HashOfLetterA()
    ensures HashOf([0x61]) == 0xaf63_bd4c_8601_b7be
  {
    NulFree([0x61]);
    assert Fold(FnvOffsetBasis, [0x61]) == FnvStep(FnvOffsetBasis, 0x61);
  }

  /** A byte other than NUL after a NUL-free string is folded in last, by
      multiplying and then xoring. */
  lemma HashOfAppend(bytes: seq<bv8>, b: bv8)
    requires forall k :: 0 <= k < |bytes| ==> bytes[k] != 0
    requires b != 0
    ensures HashOf(bytes + [b]) == FnvStep(HashOf(bytes), b)
  {
    NulFree(bytes);
    NulFree(bytes + [b]);
    assert (bytes + [b])[..|bytes|] == bytes;
  }

  /** A NUL-free string is its own C string. */
  lemma {:induction false} NulFree(bytes: seq<bv8>)
    requires forall k :: 0 <= k < |bytes| ==> bytes[k] != 0
    ensures UpToNul(bytes) == bytes
  {
    if |UpToNul(bytes)| < |bytes| {
      assert bytes[|UpToNul(bytes)|] == 0;
    }
  }

  /** Hashing stops at the first NUL: what follows it does not count. */
  lemma HashStopsAtNul(bytes: seq<bv8>, rest: seq<bv8>)
    ensures HashOf(bytes + [0] + rest) == HashOf(bytes)
  {
    UpToNulOfAppend(bytes, [0] + rest);
    assert bytes + [0] + rest == bytes + ([0] + rest);
  }

  lemma {:induction false} UpToNulOfAppend(a: seq<bv8>, b: seq<bv8>)
    requires |b| > 0 && b[0] == 0
    ensures UpToNul(a + b) == UpToNul(a)
    decreases |a|
  {
    if |a| > 0 && a[0] != 0 {
      assert (a + b)[1..] == a[1..] + b;
      UpToNulOfAppend(a[1..], b);
    }
  }
}
