/**
 * The string and path helpers of engine/core/util.cpp: `split` (both
 * overloads), `getFilePath` and `getFileExtension`. The loops walk the
 * C string of their argument, whose terminating NUL sits at index `|s|`;
 * `CStr` reads it that way.
 */
module Paths {
  import opened Lexer

  /** The character at `i` of the C string of `s`: the terminator at `|s|`. */
  function CStr(s: string, i: nat): char
    requires i <= |s|
  {
    if i < |s| then s[i] else '\0'
  }

  /** `substr(pos, len)`: at most `len` characters from `pos`, clamped to
      the end of `s`. */
  function Substr(s: string, pos: nat, len: nat): (r: string)
    requires pos <= |s|
    ensures |r| <= len && pos + |r| <= |s| && r == s[pos..pos + |r|]
    ensures pos + len <= |s| ==> |r| == len
    ensures pos + len > |s| ==> pos + |r| == |s|
  {
    if pos + len <= |s| then s[pos..pos + len] else s[pos..]
  }

  // ---------------------------------------------------------------------
  // split
  // ---------------------------------------------------------------------

  /** The first index of `d` in `s`. */
  function IndexOf(s: string, d: char): (i: nat)
    requires d in s
    ensures i < |s| && s[i] == d && d !in s[..i]
  {
    if s[0] == d then 0 else 1 + IndexOf(s[1..], d)
  }

  /** The pieces of `s` between occurrences of `d`: the reference
      definition `split` is measured against. */
  function Pieces(s: string, d: char): (r: seq<string>)
    ensures |r| > 0
    decreases |s|
  {
    if d in s then
      var i := IndexOf(s, d);
      [s[..i]] + Pieces(s[i + 1..], d)
    else [s]
  }

  /** The pieces put back together with `d` between them. */
  function Join(ps: seq<string>, d: char): string
    requires |ps| > 0
  {
    if |ps| == 1 then ps[0] else ps[0] + [d] + Join(ps[1..], d)
  }

  /** How often `d` occurs in `s`. */
  function Count(s: string, d: char): nat {
    if |s| == 0 then 0 else (if s[0] == d then 1 else 0) + Count(s[1..], d)
  }

  /** A first occurrence of `d` at `i` ends the first piece. */
  lemma PiecesFirst(s: string, d: char, i: nat)
    requires i < |s| && s[i] == d && d !in s[..i]
    ensures Pieces(s, d) == [s[..i]] + Pieces(s[i + 1..], d)
  {
  }

  /** The pieces still to come once the scan has reached `start`. */
  function Rest(s: string, start: nat, d: char): seq<string> {
    if start <= |s| then Pieces(s[start..], d) else []
  }

  /** The inner loop of `split`: from `start`, the first delimiter, or the
      terminator when the delimiter is NUL, or one past the terminator. */
  method FindDelimiter(s: string, delim: char, start: nat) returns (end: nat)
    requires start <= |s|
    ensures start <= end <= |s| + 1
    ensures forall k :: start <= k < end ==> CStr(s, k) != delim
    ensures end <= |s| ==> CStr(s, end) == delim
  {
    end := start;
    while end <= |s|
      invariant start <= end <= |s| + 1
      invariant forall k :: start <= k < end ==> CStr(s, k) != delim
      decreases |s| + 1 - end
    {
      if CStr(s, end) == delim {
        break;
      }
      end := end + 1;
    }
  }

  /** `split(elems, s, delim)`: the inner loop finds the next delimiter,
      the piece before it is appended, and the scan resumes after it.
      `elems` is appended to, not cleared. */
  method Split(elems: seq<string>, s: string, delim: char) returns (r: seq<string>)
    ensures r == elems + Pieces(s, delim)
  {
    r := elems;
    var start := 0;
    var end := 0;
    while end <= |s|
      invariant start == end <= |s| + 2
      invariant r + Rest(s, start, delim) == elems + Pieces(s, delim)
      decreases |s| + 2 - end
    {
      end := FindDelimiter(s, delim, start);
      var piece := Substr(s, start, end - start);
      SplitStep(s, delim, start, end);
      AppendAssoc(r, [piece], Rest(s, end + 1, delim));
      r := r + [piece];
      start := end + 1;
      end := start;
    }
  }

  /** One round of the outer loop of `split`: the inner loop stopped at
      `end`, at a delimiter or past the end, and the piece before it is the
      first piece of what is left. */
  lemma SplitStep(s: string, d: char, start: nat, end: nat)
    requires start <= |s| && start <= end <= |s| + 1
    requires forall k :: start <= k < end ==> CStr(s, k) != d
    requires end <= |s| ==> CStr(s, end) == d
    ensures Rest(s, start, d) == [Substr(s, start, end - start)] + Rest(s, end + 1, d)
  {
    var t := s[start..];
    if end < |s| {
      var u := t[..end - start];
      forall k | 0 <= k < |u| ensures u[k] != d {
        assert u[k] == CStr(s, start + k);
      }
      PiecesFirst(t, d, end - start);
      assert t[..end - start] == Substr(s, start, end - start);
      assert t[end - start + 1..] == s[end + 1..];
    } else {
      forall k | 0 <= k < |t| ensures t[k] != d {
        assert CStr(s, start + k) != d;
      }
      assert d !in t;
      assert Substr(s, start, end - start) == t;
    }
  }

  lemma AppendAssoc<T>(a: seq<T>, b: seq<T>, c: seq<T>)
    ensures a + (b + c) == a + b + c
  {
  }

  /** The returning overload: the pieces alone. */
  method SplitToList(s: string, delim: char) returns (r: seq<string>)
    ensures r == Pieces(s, delim)
  {
    r := Split([], s, delim);
  }

  /** Joining the pieces with the delimiter gives the string back. */
  lemma {:induction false} JoinPieces(s: string, d: char)
    ensures Join(Pieces(s, d), d) == s
    decreases |s|
  {
    if d in s {
      var i := IndexOf(s, d);
      JoinPieces(s[i + 1..], d);
      assert s == s[..i] + [d] + s[i + 1..];
    }
  }

  /** No piece holds the delimiter. */
  lemma {:induction false} PiecesWithoutDelimiter(s: string, d: char)
    ensures forall k :: 0 <= k < |Pieces(s, d)| ==> d !in Pieces(s, d)[k]
    decreases |s|
  {
    if d in s {
      var i := IndexOf(s, d);
      PiecesWithoutDelimiter(s[i + 1..], d);
    }
  }

  lemma {:induction false} CountAppend(a: string, b: string, d: char)
    ensures Count(a + b, d) == Count(a, d) + Count(b, d)
    decreases |a|
  {
    if |a| > 0 {
      assert (a + b)[0] == a[0];
      assert (a + b)[1..] == a[1..] + b;
      CountAppend(a[1..], b, d);
    } else {
      assert a + b == b;
    }
  }

  lemma {:induction false} CountNone(s: string, d: char)
    requires d !in s
    ensures Count(s, d) == 0
    decreases |s|
  {
    if |s| > 0 {
      CountNone(s[1..], d);
    }
  }

  /** There is one piece more than there are delimiters. */
  lemma {:induction false} PiecesCount(s: string, d: char)
    ensures |Pieces(s, d)| == Count(s, d) + 1
    decreases |s|
  {
    if d in s {
      var i := IndexOf(s, d);
      PiecesCount(s[i + 1..], d);
      assert s == s[..i] + ([d] + s[i + 1..]);
      CountAppend(s[..i], [d] + s[i + 1..], d);
      CountNone(s[..i], d);
      assert ([d] + s[i + 1..])[1..] == s[i + 1..];
    } else {
      CountNone(s, d);
    }
  }

  /** Pieces without the delimiter, joined, split back into themselves. */
  lemma {:induction false} PiecesOfJoin(ps: seq<string>, d: char)
    requires |ps| > 0 && forall k :: 0 <= k < |ps| ==> d !in ps[k]
    ensures Pieces(Join(ps, d), d) == ps
    decreases |ps|
  {
    if |ps| == 1 {
      assert Join(ps, d) == ps[0];
    } else {
      var head, tail := ps[0], ps[1..];
      var rest := Join(tail, d);
      var s := head + [d] + rest;
      assert Join(ps, d) == s;
      assert d !in head && forall k :: 0 <= k < |tail| ==> d !in tail[k];
      JoinParts(head, d, rest);
      PiecesFirst(s, d, |head|);
      PiecesOfJoin(tail, d);
      assert ps == [head] + tail;
    }
  }

  /** The parts of `head`, `d`, `rest` are where they belong. */
  lemma JoinParts(head: string, d: char, rest: string)
    ensures (head + [d] + rest)[..|head|] == head && (head + [d] + rest)[|head|] == d
    ensures (head + [d] + rest)[|head| + 1..] == rest
  {
  }

  /** The empty string is one empty piece. */
  lemma PiecesOfEmpty(d: char)
    ensures Pieces([], d) == [[]]
  {
  }

  /** Splitting at a delimiter splits the pieces there; in particular a
      trailing delimiter gives a final empty piece. */
  lemma {:induction false} PiecesAppend(a: string, b: string, d: char)
    ensures Pieces(a + [d] + b, d) == Pieces(a, d) + Pieces(b, d)
    decreases |a|
  {
    var s := a + [d] + b;
    if d in a {
      var i := IndexOf(a, d);
      var tail := a[i + 1..];
      PiecesAppendFirst(a, b, d, i);
      PiecesAppend(tail, b, d);
      AppendAssoc([a[..i]], Pieces(tail, d), Pieces(b, d));
    } else {
      assert s[..|a|] == a && s[|a|] == d;
      PiecesFirst(s, d, |a|);
      assert s[|a| + 1..] == b;
    }
  }

  /** A delimiter inside `a` cuts `a + [d] + b` where it cuts `a`. */
  lemma PiecesAppendFirst(a: string, b: string, d: char, i: nat)
    requires i < |a| && a[i] == d && d !in a[..i]
    ensures Pieces(a + [d] + b, d) == [a[..i]] + Pieces(a[i + 1..] + [d] + b, d)
    ensures Pieces(a, d) == [a[..i]] + Pieces(a[i + 1..], d)
  {
    var s := a + [d] + b;
    assert s[..i] == a[..i] && s[i] == d;
    PiecesFirst(s, d, i);
    PiecesFirst(a, d, i);
    assert s[i + 1..] == a[i + 1..] + [d] + b;
  }

  lemma PiecesTrailing(s: string, d: char)
    ensures Pieces(s + [d], d) == Pieces(s, d) + [[]]
  {
    PiecesAppend(s, [], d);
    assert s + [d] + [] == s + [d];
  }

  // ---------------------------------------------------------------------
  // getFilePath, getFileExtension
  // ---------------------------------------------------------------------

  predicate IsSeparator(c: char) { c == '/' || c == '\\' }

  /** `getFilePath`: walks back from the last character to a separator. A
      separator found at index 1 or later ends the path, which keeps it;
      otherwise (none, or only one at index 0) the whole name comes back.
      An empty name underflows the start index and is excluded. */
  method GetFilePath(fileName: string) returns (r: string)
    requires |fileName| > 0
    ensures (forall i :: 1 <= i < |fileName| ==> !IsSeparator(fileName[i])) ==> r == fileName
    ensures forall i :: 1 <= i < |fileName| && IsSeparator(fileName[i])
                        && (forall k :: i < k < |fileName| ==> !IsSeparator(fileName[k]))
                        ==> r == fileName[..i + 1]
    ensures r <= fileName && (|r| < |fileName| ==> |r| > 0 && IsSeparator(r[|r| - 1]))
  {
    var end := |fileName| - 1;
    while end != 0
      invariant 0 <= end < |fileName|
      invariant forall k :: end < k < |fileName| ==> !IsSeparator(fileName[k])
    {
      if IsSeparator(CStr(fileName, end)) {
        break;
      }
      end := end - 1;
    }
    if end == 0 {
      return fileName;
    }
    return Substr(fileName, 0, end + 1);
  }

  /** A dot at `j` (index 1 or later) followed, without another dot or a
      separator, by the last alphanumeric character `e` of the name: the
      extension is what lies between them. */
  predicate ExtensionAt(s: string, j: int, e: int) {
    && 1 <= j < e < |s|
    && s[j] == '.'
    && IsAlnum(s[e])
    && (forall k :: e < k < |s| ==> !IsAlnum(s[k]))
    && (forall k :: j < k <= e ==> s[k] != '.' && !IsSeparator(s[k]))
  }

  /** `getFileExtension`: skips trailing characters that are not
      alphanumeric, then walks back to a dot (the extension follows it) or
      a separator or index 0 (no extension). An empty name underflows the
      start index and is excluded. */
  method GetFileExtension(fileName: string) returns (r: string)
    requires |fileName| > 0
    ensures forall j, e :: ExtensionAt(fileName, j, e) ==> r == fileName[j + 1..e + 1]
    ensures (forall j, e :: !ExtensionAt(fileName, j, e)) ==> r == []
    ensures forall k :: 0 <= k < |r| ==> r[k] != '.' && !IsSeparator(r[k])
    ensures |r| > 0 ==> IsAlnum(r[|r| - 1])
  {
    var end := |fileName| - 1;
    while end > 0 && !IsAlnum(CStr(fileName, end))
      invariant 0 <= end < |fileName|
      invariant forall k :: end < k < |fileName| ==> !IsAlnum(fileName[k])
    {
      end := end - 1;
    }
    var start := end;
    while start > 0
      invariant 0 <= start <= end
      invariant forall k :: start < k <= end ==> fileName[k] != '.' && !IsSeparator(fileName[k])
    {
      if CStr(fileName, start) == '.' {
        ExtensionUnique(fileName, start, end);
        return Substr(fileName, start + 1, end - start);
      } else if IsSeparator(CStr(fileName, start)) {
        ExtensionBlocked(fileName, start, end);
        return [];
      }
      start := start - 1;
    }
    ExtensionBlocked(fileName, 0, end);
    return [];
  }

  /** The extension is determined by the name: the last alphanumeric
      character and the dot before it are unique. */
  lemma ExtensionUnique(s: string, start: nat, end: nat)
    requires 1 <= start <= end < |s| && s[start] == '.'
    requires IsAlnum(s[end]) || end == 0
    requires forall k :: end < k < |s| ==> !IsAlnum(s[k])
    requires forall k :: start < k <= end ==> s[k] != '.' && !IsSeparator(s[k])
    ensures ExtensionAt(s, start, end)
    ensures forall j, e :: ExtensionAt(s, j, e) ==> j == start && e == end
  {
  }

  /** A separator at `start`, or index 0 reached, leaves no extension. */
  lemma ExtensionBlocked(s: string, start: nat, end: nat)
    requires start <= end < |s|
    requires IsAlnum(s[end]) || end == 0
    requires forall k :: end < k < |s| ==> !IsAlnum(s[k])
    requires forall k :: start < k <= end ==> s[k] != '.' && !IsSeparator(s[k])
    requires start == 0 || IsSeparator(s[start])
    ensures forall j, e :: !ExtensionAt(s, j, e)
  {
  }
}
