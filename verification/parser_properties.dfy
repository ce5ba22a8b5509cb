/**
 * Properties of the layout parser as a whole: what a successful scan holds,
 * that a failure keeps exactly the declarations completed before it, and
 * that a stage reads nothing beyond the tokens it consumes.
 */
module ParserProperties {
  import opened Tokens
  import opened LayoutModel
  import opened Parser

  /** A successful scan appends one declaration per `layout` token. */
  lemma {:induction false} ScanCount(toks: seq<Token>, i: nat, found: seq<Layout>)
    requires Scan(toks, i, found).outcome.Success?
    ensures |Scan(toks, i, found).layouts| == |found| + LayoutCount(toks, i)
    decreases |toks| - i
  {
    if i >= |toks| {
      LayoutCountPast(toks, i);
    } else if toks[i].kind != LayoutKw {
      ScanCount(toks, i + 1, found);
    } else {
      var c := ConsumeLayout(toks, i + 1);
      LayoutCountSkip(toks, i + 1, c.next);
      ScanCount(toks, c.next, found + [c.value]);
    }
  }

  /** After a successful `parse` the object holds what it held before,
      followed by one new declaration per `layout` token. */
  lemma ParseCount(layoutInfo: seq<Layout>, toks: seq<Token>)
    requires ParseTokens(layoutInfo, toks).outcome.Success?
    ensures var r := ParseTokens(layoutInfo, toks);
            && |r.layouts| == |layoutInfo| + LayoutCount(toks, 0)
            && r.layouts[..|layoutInfo|] == layoutInfo
  {
    ScanCount(toks, 0, layoutInfo);
  }

  /** Tokens without a `layout` keyword leave the declarations untouched
      and the parse succeeds. */
  lemma {:induction false} ScanWithoutLayout(toks: seq<Token>, i: nat, found: seq<Layout>)
    requires LayoutCount(toks, i) == 0
    ensures Scan(toks, i, found) == ParseResult(found, Success)
    decreases |toks| - i
  {
    if i < |toks| {
      ScanWithoutLayout(toks, i + 1, found);
    }
  }

  // ---------------------------------------------------------------------
  // A stage reads only the tokens it consumes: cutting the sequence
  // anywhere at or after the end of a successful stage changes nothing.
  // ---------------------------------------------------------------------

  lemma OptionValuePrefix(toks: seq<Token>, pos: nat, n: nat)
    requires OptionValue(toks, pos).Ok? && OptionValue(toks, pos).next <= n <= |toks|
    ensures OptionValue(toks[..n], pos) == OptionValue(toks, pos)
  {
  }

  lemma {:induction false} OptionsPrefix(toks: seq<Token>, pos: nat, opts: map<string, int32>, n: nat)
    requires Options(toks, pos, opts).Ok? && Options(toks, pos, opts).next <= n <= |toks|
    ensures Options(toks[..n], pos, opts) == Options(toks, pos, opts)
    decreases |toks| - pos
  {
    var v := OptionValue(toks, pos + 1);
    OptionValuePrefix(toks, pos + 1, n);
    if !v.value.1 {
      OptionsPrefix(toks, v.next, opts[toks[pos].lexeme := v.value.0], n);
    }
  }

  lemma {:induction false} MemoryQualifiersPrefix(toks: seq<Token>, pos: nat, acc: seq<string>, n: nat)
    requires MemoryQualifiers(toks, pos, acc).Ok? && MemoryQualifiers(toks, pos, acc).next < n <= |toks|
    ensures MemoryQualifiers(toks[..n], pos, acc) == MemoryQualifiers(toks, pos, acc)
    decreases |toks| - pos
  {
    if toks[pos].kind == MemoryQualifier {
      MemoryQualifiersPrefix(toks, pos + 1, acc + [toks[pos].lexeme], n);
    }
  }

  lemma QualifiersPrefix(toks: seq<Token>, pos: nat, opts: map<string, int32>, n: nat)
    requires Qualifiers(toks, pos, opts).Ok? && Qualifiers(toks, pos, opts).next <= n <= |toks|
    ensures Qualifiers(toks[..n], pos, opts) == Qualifiers(toks, pos, opts)
  {
    MemoryQualifiersPrefix(toks, pos, [], n);
  }

  lemma {:induction false} TrailerPrefix(toks: seq<Token>, pos: nat, n: nat)
    requires Trailer(toks, pos).Ok? && Trailer(toks, pos).next <= n <= |toks|
    ensures Trailer(toks[..n], pos) == Trailer(toks, pos)
    decreases |toks| - pos
  {
    if toks[pos].kind != SemiColon {
      TrailerPrefix(toks, pos + 1, n);
    }
  }

  lemma ArraySizePrefix(toks: seq<Token>, pos: nat, n: nat)
    requires ArraySize(toks, pos).Ok? && ArraySize(toks, pos).next <= n <= |toks|
    ensures ArraySize(toks[..n], pos) == ArraySize(toks, pos)
  {
  }

  lemma MemberPrefix(toks: seq<Token>, pos: nat, size: int32, n: nat)
    requires pos < |toks|
    requires Member(toks, pos, size).Ok? && Member(toks, pos, size).next <= n <= |toks|
    ensures Member(toks[..n], pos, size) == Member(toks, pos, size)
  {
    if toks[pos + 2].kind == OpenSquare {
      ArraySizePrefix(toks, pos + 3, n);
    }
  }

  lemma {:induction false} MembersPrefix(toks: seq<Token>, pos: nat, body: seq<Variable>, size: int32, n: nat)
    requires Members(toks, pos, body, size).Ok? && Members(toks, pos, body, size).next <= n <= |toks|
    ensures Members(toks[..n], pos, body, size) == Members(toks, pos, body, size)
    decreases |toks| - pos
  {
    if toks[pos].kind == CloseCurly {
      TrailerPrefix(toks, pos + 1, n);
    } else {
      var m := Member(toks, pos, size);
      MemberPrefix(toks, pos, size, n);
      MembersPrefix(toks, m.next, body + [m.value], m.value.arraySize, n);
    }
  }

  lemma VariablesPrefix(toks: seq<Token>, pos: nat, n: nat)
    requires Variables(toks, pos).Ok? && Variables(toks, pos).next <= n <= |toks|
    ensures Variables(toks[..n], pos) == Variables(toks, pos)
  {
    MembersPrefix(toks, pos + 1, [], 0, n);
  }

  lemma ConsumeLayoutPrefix(toks: seq<Token>, pos: nat, n: nat)
    requires ConsumeLayout(toks, pos).Ok? && ConsumeLayout(toks, pos).next <= n <= |toks|
    ensures ConsumeLayout(toks[..n], pos) == ConsumeLayout(toks, pos)
  {
    var t := toks[..n];
    var o := Options(toks, pos + 1, map[]);
    var q := Qualifiers(toks, o.next, o.value);
    assert Expect(t, pos, OpenParen);
    assert Options(t, pos + 1, map[]) == o by { OptionsPrefix(toks, pos + 1, map[], n); }
    assert Qualifiers(t, o.next, o.value) == q by { QualifiersPrefix(toks, o.next, o.value, n); }
    if IsBlock(q.value.kind) {
      assert Variables(t, q.next) == Variables(toks, q.next) by { VariablesPrefix(toks, q.next, n); }
    }
  }

  // ---------------------------------------------------------------------
  // The parser reads only the tag and the text of a token, never its
  // line: sequences that agree on those parse alike.
  // ---------------------------------------------------------------------

  /** `a` and `b` hold the same tags and lexemes, token for token; their
      lines may differ. */
  predicate SameText(a: seq<Token>, b: seq<Token>) {
    && |a| == |b|
    && forall k :: 0 <= k < |a| ==> a[k].kind == b[k].kind && a[k].lexeme == b[k].lexeme
  }

  lemma OptionValueSameText(a: seq<Token>, b: seq<Token>, pos: nat)
    requires SameText(a, b)
    ensures OptionValue(a, pos) == OptionValue(b, pos)
  {
  }

  lemma {:induction false} OptionsSameText(a: seq<Token>, b: seq<Token>, pos: nat, opts: map<string, int32>)
    requires SameText(a, b)
    ensures Options(a, pos, opts) == Options(b, pos, opts)
    decreases |a| - pos
  {
    var v := OptionValue(a, pos + 1);
    OptionValueSameText(a, b, pos + 1);
    if Expect(a, pos, Identifier) && v.Ok? && !v.value.1 {
      OptionsSameText(a, b, v.next, opts[a[pos].lexeme := v.value.0]);
    }
  }

  lemma {:induction false} MemoryQualifiersSameText(a: seq<Token>, b: seq<Token>, pos: nat, acc: seq<string>)
    requires SameText(a, b)
    ensures MemoryQualifiers(a, pos, acc) == MemoryQualifiers(b, pos, acc)
    decreases |a| - pos
  {
    if Accepts(a, pos, QualifierKinds) && a[pos].kind == MemoryQualifier {
      MemoryQualifiersSameText(a, b, pos + 1, acc + [a[pos].lexeme]);
    }
  }

  lemma QualifiersSameText(a: seq<Token>, b: seq<Token>, pos: nat, opts: map<string, int32>)
    requires SameText(a, b)
    ensures Qualifiers(a, pos, opts) == Qualifiers(b, pos, opts)
  {
    MemoryQualifiersSameText(a, b, pos, []);
  }

  lemma {:induction false} TrailerSameText(a: seq<Token>, b: seq<Token>, pos: nat)
    requires SameText(a, b)
    ensures Trailer(a, pos) == Trailer(b, pos)
    decreases |a| - pos
  {
    if Accepts(a, pos, [SemiColon, Identifier]) && a[pos].kind != SemiColon {
      TrailerSameText(a, b, pos + 1);
    }
  }

  lemma ArraySizeSameText(a: seq<Token>, b: seq<Token>, pos: nat)
    requires SameText(a, b)
    ensures ArraySize(a, pos) == ArraySize(b, pos)
  {
  }

  lemma MemberSameText(a: seq<Token>, b: seq<Token>, pos: nat, size: int32)
    requires SameText(a, b) && pos < |a|
    ensures Member(a, pos, size) == Member(b, pos, size)
  {
    ArraySizeSameText(a, b, pos + 3);
  }

  lemma {:induction false} MembersSameText(a: seq<Token>, b: seq<Token>, pos: nat, body: seq<Variable>, size: int32)
    requires SameText(a, b)
    ensures Members(a, pos, body, size) == Members(b, pos, body, size)
    decreases |a| - pos
  {
    if Accepts(a, pos, [Identifier, CloseCurly]) {
      if a[pos].kind == CloseCurly {
        TrailerSameText(a, b, pos + 1);
      } else {
        var m := Member(a, pos, size);
        MemberSameText(a, b, pos, size);
        if m.Ok? {
          MembersSameText(a, b, m.next, body + [m.value], m.value.arraySize);
        }
      }
    }
  }

  lemma VariablesSameText(a: seq<Token>, b: seq<Token>, pos: nat)
    requires SameText(a, b)
    ensures Variables(a, pos) == Variables(b, pos)
  {
    MembersSameText(a, b, pos + 1, [], 0);
  }

  lemma ConsumeLayoutSameText(a: seq<Token>, b: seq<Token>, pos: nat)
    requires SameText(a, b)
    ensures ConsumeLayout(a, pos) == ConsumeLayout(b, pos)
  {
    var o := Options(a, pos + 1, map[]);
    assert Expect(a, pos, OpenParen) == Expect(b, pos, OpenParen);
    assert Options(b, pos + 1, map[]) == o by { OptionsSameText(a, b, pos + 1, map[]); }
    if o.Ok? {
      var q := Qualifiers(a, o.next, o.value);
      assert Qualifiers(b, o.next, o.value) == q by { QualifiersSameText(a, b, o.next, o.value); }
      if q.Ok? {
        assert Variables(b, q.next) == Variables(a, q.next) by { VariablesSameText(a, b, q.next); }
      }
    }
  }

  lemma {:induction false} ScanSameText(a: seq<Token>, b: seq<Token>, i: nat, found: seq<Layout>)
    requires SameText(a, b)
    ensures Scan(a, i, found) == Scan(b, i, found)
    decreases |a| - i
  {
    if i < |a| {
      if a[i].kind != LayoutKw {
        ScanSameText(a, b, i + 1, found);
      } else {
        var c := ConsumeLayout(a, i + 1);
        ConsumeLayoutSameText(a, b, i + 1);
        if c.Ok? {
          ScanSameText(a, b, c.next, found + [c.value]);
        }
      }
    }
  }

  /** `parse` never looks at token lines: two token sequences with the same
      tags and lexemes give the same declarations and the same outcome. */
  lemma ParseIgnoresLines(layoutInfo: seq<Layout>, a: seq<Token>, b: seq<Token>)
    requires SameText(a, b)
    ensures ParseTokens(layoutInfo, a) == ParseTokens(layoutInfo, b)
  {
    ScanSameText(a, b, 0, layoutInfo);
  }

  /** A failed scan keeps exactly what a scan of the tokens before the
      failing `layout` keyword completes: the declarations before the
      failing one are all there, and the failing one is not. */
  lemma {:induction false} ScanFailureKeepsCompleted(toks: seq<Token>, i: nat, found: seq<Layout>)
    requires Scan(toks, i, found).outcome.Failure?
    ensures exists f :: i <= f < |toks| && toks[f].kind == LayoutKw
                     && ConsumeLayout(toks, f + 1).Fail?
                     && Scan(toks[..f], i, found) == ParseResult(Scan(toks, i, found).layouts, Success)
    decreases |toks| - i
  {
    if toks[i].kind != LayoutKw {
      ScanFailureKeepsCompleted(toks, i + 1, found);
      var f :| i + 1 <= f < |toks| && toks[f].kind == LayoutKw
               && ConsumeLayout(toks, f + 1).Fail?
               && Scan(toks[..f], i + 1, found) == ParseResult(Scan(toks, i + 1, found).layouts, Success);
      assert toks[..f][i] == toks[i];
    } else if ConsumeLayout(toks, i + 1).Fail? {
      assert Scan(toks[..i], i, found) == ParseResult(found, Success);
    } else {
      var c := ConsumeLayout(toks, i + 1);
      ScanFailureKeepsCompleted(toks, c.next, found + [c.value]);
      var f :| c.next <= f < |toks| && toks[f].kind == LayoutKw
               && ConsumeLayout(toks, f + 1).Fail?
               && Scan(toks[..f], c.next, found + [c.value]) == ParseResult(Scan(toks, c.next, found + [c.value]).layouts, Success);
      ConsumeLayoutPrefix(toks, i + 1, f);
      assert toks[..f][i] == toks[i];
    }
  }

  // ---------------------------------------------------------------------
  // Steps of the scan
  // ---------------------------------------------------------------------

  /** Tokens without a `layout` keyword are passed over. */
  lemma {:induction false} ScanSkips(toks: seq<Token>, i: nat, q: nat, found: seq<Layout>)
    requires i <= q <= |toks| && NoLayoutIn(toks, i, q)
    ensures Scan(toks, i, found) == Scan(toks, q, found)
    decreases q - i
  {
    if i < q {
      ScanSkips(toks, i + 1, q, found);
    }
  }

  /** `toks` has a `layout` keyword at `p`. */
  predicate LayoutAt(toks: seq<Token>, p: nat) {
    p < |toks| && toks[p].kind == LayoutKw
  }

  /** The tokens from `m` up to `q` are ones the scan passes over. */
  predicate Skipped(toks: seq<Token>, m: nat, q: nat) {
    m <= q <= |toks| && NoLayoutIn(toks, m, q)
  }

  /** A `layout` keyword whose declaration `consumeLayout` reads, followed
      by tokens the scan passes over up to `q`, is one step: the scan
      appends the declaration and carries on from `q`. */
  lemma ScanStep(toks: seq<Token>, p: nat, l: Layout, m: nat, q: nat, found: seq<Layout>)
    requires LayoutAt(toks, p)
    requires ConsumeLayout(toks, p + 1) == Ok(l, m)
    requires Skipped(toks, m, q)
    ensures Scan(toks, p, found) == Scan(toks, q, found + [l])
  {
    ScanSkips(toks, m, q, found + [l]);
  }

  lemma AppendCons<T>(a: seq<T>, x: T, b: seq<T>, c: seq<T>)
    requires c == [x] + b
    ensures a + [x] + b == a + c
  {
  }

  /** A run made of steps: if from `ps[k]` to `ps[k + 1]` the run appends
      `ls[k]`, whatever it has found before, then from `ps[0]` to the last
      position it appends all of `ls`, in order. */
  lemma {:induction false} RunOfSteps<T, R>(run: (nat, seq<T>) -> R, ps: seq<nat>, ls: seq<T>, found: seq<T>)
    requires |ps| == |ls| + 1
    requires forall k, f :: 0 <= k < |ls| ==> run(ps[k], f) == run(ps[k + 1], f + [ls[k]])
    ensures run(ps[0], found) == run(ps[|ls|], found + ls)
    decreases |ls|
  {
    if |ls| == 0 {
      assert found + ls == found;
    } else {
      forall k, f | 0 <= k < |ls[1..]| ensures run(ps[1..][k], f) == run(ps[1..][k + 1], f + [ls[1..][k]]) {
        assert run(ps[k + 1], f) == run(ps[k + 2], f + [ls[k + 1]]);
      }
      RunOfSteps(run, ps[1..], ls[1..], found + [ls[0]]);
      AppendCons(found, ls[0], ls[1..], ls);
    }
  }

  /** `parse` is a scan from the first token; one that runs to the end
      succeeds with what it has appended. */
  lemma ParseRun(layoutInfo: seq<Layout>, toks: seq<Token>, ls: seq<Layout>)
    requires Scan(toks, 0, layoutInfo) == Scan(toks, |toks|, layoutInfo + ls)
    ensures ParseTokens(layoutInfo, toks) == ParseResult(layoutInfo + ls, Success)
  {
  }
}
