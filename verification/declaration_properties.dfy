/**
 * Round trips for whole declarations: the qualifier stage, the member
 * list of a block, `consumeLayout` and the scan of `parse` each read back
 * exactly the record the spelling of a valid declaration denotes. Also the
 * declarations the parser rejects even though they look complete.
 */
module DeclarationProperties {
  import opened Tokens
  import opened LayoutModel
  import opened Numbers
  import opened Parser
  import opened Grammar
  import opened GrammarProperties
  import opened ParserProperties

  /** What the qualifier stage fills in for a declaration. */
  function HeaderOf(d: Declaration): Header {
    Header(DeclaredKind(d), d.qualifiers, if IsBlockDecl(d) then "" else d.typeName, d.name)
  }

  // ---------------------------------------------------------------------
  // Qualifiers
  // ---------------------------------------------------------------------

  /** Memory qualifiers are collected in order up to the storage keyword. */
  lemma {:induction false} MemoryQualifiersRead(toks: seq<Token>, p: nat, qs: seq<string>, acc: seq<string>)
    requires At(toks, p, QualifierTokens(qs))
    requires p + |qs| < |toks| && IsStorageKeyword(toks[p + |qs|].kind)
    ensures MemoryQualifiers(toks, p, acc) == Ok(acc + qs, p + |qs|)
    decreases |qs|
  {
    if |qs| == 0 {
      assert acc + qs == acc;
    } else {
      QualifierParts(toks, p, qs);
      MemoryQualifiersRead(toks, p + 1, qs[1..], acc + [qs[0]]);
      AppendCons(acc, qs[0], qs[1..], qs);
    }
  }

  /** The first memory qualifier, then the rest. */
  lemma QualifierParts(toks: seq<Token>, p: nat, qs: seq<string>)
    requires |qs| > 0 && At(toks, p, QualifierTokens(qs))
    ensures p < |toks| && toks[p] == Tok(MemoryQualifier, qs[0])
    ensures At(toks, p + 1, QualifierTokens(qs[1..]))
  {
    var head := [Tok(MemoryQualifier, qs[0])];
    var tail := QualifierTokens(qs[1..]);
    assert QualifierTokens(qs) == head + tail;
    AtSplit(toks, p, head, tail);
    AtAll(toks, p, head);
  }

  /** The qualifier stage reads the declared kind, the memory qualifiers and
      the names; `opts` names `std140` exactly when the options do. */
  lemma QualifiersRead(toks: seq<Token>, p: nat, d: Declaration, opts: map<string, int32>)
    requires ValidDeclaration(d)
    requires "std140" in opts <==> HasStd140(d.options)
    requires At(toks, p, HeaderTokens(d))
    ensures Qualifiers(toks, p, opts) == Ok(HeaderOf(d), p + |HeaderTokens(d)|)
  {
    var q := p + |d.qualifiers|;
    HeaderParts(toks, p, d);
    MemoryQualifiersRead(toks, p, d.qualifiers, []);
    assert [] + d.qualifiers == d.qualifiers;
    assert StorageKind(toks[q].kind, opts) == DeclaredKind(d);
  }

  /** Where the parts of a header lie: the memory qualifiers, the storage
      keyword after them, then one name for a block and two otherwise. */
  lemma HeaderParts(toks: seq<Token>, p: nat, d: Declaration)
    requires At(toks, p, HeaderTokens(d))
    ensures At(toks, p, QualifierTokens(d.qualifiers))
    ensures p + |d.qualifiers| + 1 < |toks| && toks[p + |d.qualifiers|] == StorageToken(d.storage)
    ensures toks[p + |d.qualifiers| + 1] == Tok(Identifier, if IsBlockDecl(d) then d.name else d.typeName)
    ensures !IsBlockDecl(d) ==> p + |d.qualifiers| + 2 < |toks| && toks[p + |d.qualifiers| + 2] == Tok(Identifier, d.name)
    ensures |HeaderTokens(d)| == |d.qualifiers| + if IsBlockDecl(d) then 2 else 3
  {
    var quals := QualifierTokens(d.qualifiers);
    var storage := [StorageToken(d.storage)];
    var names := if IsBlockDecl(d) then [Tok(Identifier, d.name)]
                 else [Tok(Identifier, d.typeName), Tok(Identifier, d.name)];
    var q := p + |d.qualifiers|;
    AtSplit(toks, p, quals + storage, names);
    AtSplit(toks, p, quals, storage);
    assert toks[q + 0] == storage[0];
    assert toks[q + 1 + 0] == names[0];
    if !IsBlockDecl(d) {
      assert toks[q + 1 + 1] == names[1];
    }
  }

  // ---------------------------------------------------------------------
  // Block bodies
  // ---------------------------------------------------------------------

  /** One member reads back as its record. */
  lemma MemberRead(toks: seq<Token>, p: nat, m: MemberDecl, size: int32)
    requires ValidMember(m) && At(toks, p, MemberTokens(m))
    ensures p < |toks| && Member(toks, p, size) == Ok(MemberMeaning(m, size), p + |MemberTokens(m)|)
  {
    var r := MemberTokens(m);
    AtAll(toks, p, r);
    assert toks[p + 0] == r[0] && toks[p + 1] == r[1] && toks[p + 2] == r[2];
    match m.shape
    case Scalar =>
    case Sized(n) =>
      assert toks[p + 3] == r[3] && toks[p + 4] == r[4] && toks[p + 5] == r[5];
      StoiDecimalText(n);
    case Unsized =>
      assert toks[p + 3] == r[3] && toks[p + 4] == r[4];
  }

  /** The names after a block's `}` are read and dropped up to the `;`. */
  lemma {:induction false} TrailerRead(toks: seq<Token>, p: nat, ws: seq<string>)
    requires At(toks, p, IdentifierTokens(ws) + [Tok(SemiColon, ";")])
    ensures Trailer(toks, p) == Ok((), p + |ws| + 1)
    decreases |ws|
  {
    var r := IdentifierTokens(ws) + [Tok(SemiColon, ";")];
    assert toks[p + 0] == r[0];
    if |ws| > 0 {
      var head := [Tok(Identifier, ws[0])];
      var tail := IdentifierTokens(ws[1..]) + [Tok(SemiColon, ";")];
      assert r == head + tail;
      AtSplit(toks, p, head, tail);
      TrailerRead(toks, p + 1, ws[1..]);
    }
  }

  /** The end of a block: `}` then the trailer. */
  lemma ClosingRead(toks: seq<Token>, p: nat, ws: seq<string>, body: seq<Variable>, size: int32)
    requires At(toks, p, ClosingTokens(ws))
    ensures Members(toks, p, body, size) == Ok(body, p + |ClosingTokens(ws)|)
  {
    var head := [Tok(CloseCurly, "}")];
    var tail := IdentifierTokens(ws) + [Tok(SemiColon, ";")];
    assert ClosingTokens(ws) == head + tail;
    AtSplit(toks, p, head, tail);
    assert toks[p + 0] == head[0];
    TrailerRead(toks, p + 1, ws);
  }

  /** One member hands over to the rest of the list. */
  lemma MembersStep(toks: seq<Token>, p: nat, m: MemberDecl, body: seq<Variable>, size: int32)
    requires ValidMember(m) && At(toks, p, MemberTokens(m))
    ensures Members(toks, p, body, size)
         == Members(toks, p + |MemberTokens(m)|, body + [MemberMeaning(m, size)], MemberMeaning(m, size).arraySize)
  {
    MemberRead(toks, p, m, size);
    AtAll(toks, p, MemberTokens(m));
    assert toks[p + 0] == MemberTokens(m)[0];
  }

  /** The first member's record, then the rest's, counting on from it. */
  lemma BodyCons(ms: seq<MemberDecl>, size: int32)
    requires |ms| > 0 && forall k :: 0 <= k < |ms| ==> ValidMember(ms[k])
    ensures ValidMember(ms[0]) && forall k :: 0 <= k < |ms[1..]| ==> ValidMember(ms[1..][k])
    ensures Body(ms, size) == [MemberMeaning(ms[0], size)] + Body(ms[1..], MemberMeaning(ms[0], size).arraySize)
    ensures |MemberListTokens(ms)| == |MemberTokens(ms[0])| + |MemberListTokens(ms[1..])|
  {
  }

  /** An empty member list: the closing tokens alone. */
  lemma MembersNil(toks: seq<Token>, p: nat, ms: seq<MemberDecl>, ws: seq<string>, body: seq<Variable>, size: int32)
    requires |ms| == 0 && At(toks, p, MemberListTokens(ms) + ClosingTokens(ws))
    ensures Members(toks, p, body, size)
         == Ok(body + Body(ms, size), p + |MemberListTokens(ms)| + |ClosingTokens(ws)|)
  {
    assert MemberListTokens(ms) + ClosingTokens(ws) == ClosingTokens(ws);
    ClosingRead(toks, p, ws, body, size);
    assert body + Body(ms, size) == body;
  }

  /** Where the first member and the rest lie. */
  lemma MembersParts(toks: seq<Token>, p: nat, ms: seq<MemberDecl>, ws: seq<string>)
    requires |ms| > 0 && At(toks, p, MemberListTokens(ms) + ClosingTokens(ws))
    ensures At(toks, p, MemberTokens(ms[0]))
    ensures At(toks, p + |MemberTokens(ms[0])|, MemberListTokens(ms[1..]) + ClosingTokens(ws))
  {
    assert MemberListTokens(ms) + ClosingTokens(ws)
        == MemberTokens(ms[0]) + (MemberListTokens(ms[1..]) + ClosingTokens(ws));
    AtSplit(toks, p, MemberTokens(ms[0]), MemberListTokens(ms[1..]) + ClosingTokens(ws));
  }

  /** The first member read, the rest of the list read as `rest` says. */
  lemma MembersCons(toks: seq<Token>, p: nat, ms: seq<MemberDecl>, ws: seq<string>, body: seq<Variable>, size: int32)
    requires |ms| > 0 && forall k :: 0 <= k < |ms| ==> ValidMember(ms[k])
    requires At(toks, p, MemberTokens(ms[0]))
    requires Members(toks, p + |MemberTokens(ms[0])|, body + [MemberMeaning(ms[0], size)], MemberMeaning(ms[0], size).arraySize)
          == Ok(body + [MemberMeaning(ms[0], size)] + Body(ms[1..], MemberMeaning(ms[0], size).arraySize),
                p + |MemberTokens(ms[0])| + |MemberListTokens(ms[1..])| + |ClosingTokens(ws)|)
    ensures Members(toks, p, body, size)
         == Ok(body + Body(ms, size), p + |MemberListTokens(ms)| + |ClosingTokens(ws)|)
  {
    var v := MemberMeaning(ms[0], size);
    MembersStep(toks, p, ms[0], body, size);
    BodyCons(ms, size);
    AppendCons(body, v, Body(ms[1..], v.arraySize), Body(ms, size));
  }

  /** A member list reads back as the member records, in order, with each
      scalar member carrying the previous count. */
  lemma {:induction false} MembersRead(toks: seq<Token>, p: nat, ms: seq<MemberDecl>, ws: seq<string>,
                                       body: seq<Variable>, size: int32)
    requires forall k :: 0 <= k < |ms| ==> ValidMember(ms[k])
    requires At(toks, p, MemberListTokens(ms) + ClosingTokens(ws))
    ensures Members(toks, p, body, size)
         == Ok(body + Body(ms, size), p + |MemberListTokens(ms)| + |ClosingTokens(ws)|)
    decreases |ms|
  {
    if |ms| == 0 {
      MembersNil(toks, p, ms, ws, body, size);
    } else {
      MembersParts(toks, p, ms, ws);
      BodyCons(ms, size);
      MembersRead(toks, p + |MemberTokens(ms[0])|, ms[1..], ws, body + [MemberMeaning(ms[0], size)],
                  MemberMeaning(ms[0], size).arraySize);
      MembersCons(toks, p, ms, ws, body, size);
    }
  }

  /** A block body reads back as its member records; the first scalar
      member starts from the count 0. */
  lemma VariablesRead(toks: seq<Token>, p: nat, d: Declaration)
    requires forall k :: 0 <= k < |d.members| ==> ValidMember(d.members[k])
    requires At(toks, p, BlockTokens(d))
    ensures Variables(toks, p) == Ok(Body(d.members, 0), p + |BlockTokens(d)|)
  {
    var head := [Tok(OpenCurly, "{")];
    var tail := MemberListTokens(d.members) + ClosingTokens(d.instances);
    assert BlockTokens(d) == head + tail;
    AtSplit(toks, p, head, tail);
    assert toks[p + 0] == head[0];
    MembersRead(toks, p + 1, d.members, d.instances, [], 0);
    assert [] + Body(d.members, 0) == Body(d.members, 0);
  }

  // ---------------------------------------------------------------------
  // Whole declarations and programs
  // ---------------------------------------------------------------------

  /** The spelling of a declaration, split at the stage boundaries. */
  lemma LayoutSplit(d: Declaration)
    ensures LayoutTokens(d)
         == ([Tok(LayoutKw, "layout"), Tok(OpenParen, "(")] + OptionListTokens(d.options))
            + (HeaderTokens(d) + if IsBlockDecl(d) then BlockTokens(d) else [])
    ensures |LayoutTokens(d)|
         == 2 + |OptionListTokens(d.options)| + |HeaderTokens(d)| + if IsBlockDecl(d) then |BlockTokens(d)| else 0
  {
  }

  /** Where the options lie, after `layout` and `(`. */
  lemma OptionsPart(toks: seq<Token>, p: nat, d: Declaration)
    requires At(toks, p, LayoutTokens(d))
    ensures Expect(toks, p + 1, OpenParen)
    ensures At(toks, p + 2, OptionListTokens(d.options))
  {
    var start := [Tok(LayoutKw, "layout"), Tok(OpenParen, "(")];
    var rest := HeaderTokens(d) + if IsBlockDecl(d) then BlockTokens(d) else [];
    LayoutSplit(d);
    AtSplit(toks, p, start + OptionListTokens(d.options), rest);
    AtSplit(toks, p, start, OptionListTokens(d.options));
    AtAll(toks, p, start);
    assert toks[p + 1] == start[1];
  }

  /** Where the header and the block lie, after the options. */
  lemma RestParts(toks: seq<Token>, p: nat, d: Declaration)
    requires At(toks, p, LayoutTokens(d))
    ensures At(toks, p + 2 + |OptionListTokens(d.options)|, HeaderTokens(d))
    ensures IsBlockDecl(d) ==> At(toks, p + 2 + |OptionListTokens(d.options)| + |HeaderTokens(d)|, BlockTokens(d))
  {
    var lead := [Tok(LayoutKw, "layout"), Tok(OpenParen, "(")] + OptionListTokens(d.options);
    var header := HeaderTokens(d);
    var block := if IsBlockDecl(d) then BlockTokens(d) else [];
    LayoutSplit(d);
    assert LayoutTokens(d) == lead + (header + block);
    AtSplit(toks, p, lead, header + block);
    AtSplit(toks, p + |lead|, header, block);
  }

  /** The option stage reads the options of a valid declaration, which end
      at `a`. */
  lemma OptionsStage(toks: seq<Token>, p: nat, d: Declaration, a: nat)
    requires ValidDeclaration(d)
    requires At(toks, p + 2, OptionListTokens(d.options)) && a == p + 2 + |OptionListTokens(d.options)|
    ensures Options(toks, p + 2, map[]) == Ok(OptionMap(map[], d.options), a)
  {
    OptionsRead(toks, p + 2, d.options, map[]);
  }

  /** The qualifier stage reads the header, from `a` to `b`. */
  lemma HeaderStage(toks: seq<Token>, d: Declaration, a: nat, b: nat)
    requires ValidDeclaration(d)
    requires At(toks, a, HeaderTokens(d)) && b == a + |HeaderTokens(d)|
    ensures Qualifiers(toks, a, OptionMap(map[], d.options)) == Ok(HeaderOf(d), b)
  {
    OptionMapStd140(map[], d.options);
    QualifiersRead(toks, a, d, OptionMap(map[], d.options));
  }

  /** The member stage reads a block's body, from `b` to `c`. */
  lemma BodyStage(toks: seq<Token>, d: Declaration, b: nat, c: nat)
    requires ValidDeclaration(d) && IsBlockDecl(d)
    requires At(toks, b, BlockTokens(d)) && c == b + |BlockTokens(d)|
    ensures Variables(toks, b) == Ok(Body(d.members, 0), c)
  {
    VariablesRead(toks, b, d);
  }

  /** `consumeLayout` on a block is its three stages run one after the
      other. */
  lemma BlockStagesCompose(toks: seq<Token>, p: nat, opts: map<string, int32>, a: nat,
                           h: Header, b: nat, body: seq<Variable>, c: nat)
    requires Expect(toks, p, OpenParen)
    requires Options(toks, p + 1, map[]) == Ok(opts, a)
    requires Qualifiers(toks, a, opts) == Ok(h, b)
    requires IsBlock(h.kind) && Variables(toks, b) == Ok(body, c)
    ensures ConsumeLayout(toks, p) == Ok(Layout(h.kind, opts, h.memoryQualifiers, h.name, h.typeQualifier, body), c)
  {
  }

  /** `consumeLayout` on anything else stops after the qualifier stage. */
  lemma ScalarStagesCompose(toks: seq<Token>, p: nat, opts: map<string, int32>, a: nat, h: Header, b: nat)
    requires Expect(toks, p, OpenParen)
    requires Options(toks, p + 1, map[]) == Ok(opts, a)
    requires Qualifiers(toks, a, opts) == Ok(h, b)
    requires !IsBlock(h.kind)
    ensures ConsumeLayout(toks, p) == Ok(Layout(h.kind, opts, h.memoryQualifiers, h.name, h.typeQualifier, []), b)
  {
  }

  /** The record of a block, assembled from its header the way
      `consumeLayout` assembles it. */
  lemma BlockMeaningOfHeader(d: Declaration)
    requires ValidDeclaration(d) && IsBlockDecl(d)
    ensures IsBlock(HeaderOf(d).kind)
    ensures Meaning(d) == Layout(HeaderOf(d).kind, OptionMap(map[], d.options), HeaderOf(d).memoryQualifiers,
                                 HeaderOf(d).name, HeaderOf(d).typeQualifier, Body(d.members, 0))
  {
  }

  /** The record of any other declaration, assembled from its header. */
  lemma ScalarMeaningOfHeader(d: Declaration)
    requires ValidDeclaration(d) && !IsBlockDecl(d)
    ensures !IsBlock(HeaderOf(d).kind)
    ensures Meaning(d) == Layout(HeaderOf(d).kind, OptionMap(map[], d.options), HeaderOf(d).memoryQualifiers,
                                 HeaderOf(d).name, HeaderOf(d).typeQualifier, [])
  {
  }

  /** The stages of `consumeLayout`, each reading its part of a valid block,
      yield the record the block denotes. */
  lemma BlockCompose(toks: seq<Token>, p: nat, d: Declaration, a: nat, b: nat, c: nat)
    requires ValidDeclaration(d) && IsBlockDecl(d)
    requires Expect(toks, p + 1, OpenParen)
    requires Options(toks, p + 2, map[]) == Ok(OptionMap(map[], d.options), a)
    requires Qualifiers(toks, a, OptionMap(map[], d.options)) == Ok(HeaderOf(d), b)
    requires Variables(toks, b) == Ok(Body(d.members, 0), c)
    ensures ConsumeLayout(toks, p + 1) == Ok(Meaning(d), c)
  {
    BlockMeaningOfHeader(d);
    BlockStagesCompose(toks, p + 1, OptionMap(map[], d.options), a, HeaderOf(d), b, Body(d.members, 0), c);
  }

  /** The same for a declaration that is not a block. */
  lemma ScalarCompose(toks: seq<Token>, p: nat, d: Declaration, a: nat, b: nat, c: nat)
    requires ValidDeclaration(d) && !IsBlockDecl(d)
    requires Expect(toks, p + 1, OpenParen)
    requires Options(toks, p + 2, map[]) == Ok(OptionMap(map[], d.options), a)
    requires Qualifiers(toks, a, OptionMap(map[], d.options)) == Ok(HeaderOf(d), b)
    requires b == c
    ensures ConsumeLayout(toks, p + 1) == Ok(Meaning(d), c)
  {
    ScalarMeaningOfHeader(d);
    ScalarStagesCompose(toks, p + 1, OptionMap(map[], d.options), a, HeaderOf(d), b);
  }

  /** `consumeLayout` reads a valid declaration back as the record it
      denotes and stops just after its last token. */
  lemma ConsumeLayoutRead(toks: seq<Token>, p: nat, d: Declaration)
    requires ValidDeclaration(d) && At(toks, p, LayoutTokens(d))
    ensures ConsumeLayout(toks, p + 1) == Ok(Meaning(d), p + |LayoutTokens(d)|)
  {
    OptionsPart(toks, p, d);
    RestParts(toks, p, d);
    LayoutSplit(d);
    if IsBlockDecl(d) {
      BlockRead(toks, p, d, p + 2 + |OptionListTokens(d.options)|,
                p + 2 + |OptionListTokens(d.options)| + |HeaderTokens(d)|, p + |LayoutTokens(d)|);
    } else {
      ScalarRead(toks, p, d, p + 2 + |OptionListTokens(d.options)|,
                 p + 2 + |OptionListTokens(d.options)| + |HeaderTokens(d)|, p + |LayoutTokens(d)|);
    }
  }

  /** A valid block with its parts in place reads back as its record. */
  lemma BlockRead(toks: seq<Token>, p: nat, d: Declaration, a: nat, b: nat, c: nat)
    requires ValidDeclaration(d) && IsBlockDecl(d)
    requires Expect(toks, p + 1, OpenParen)
    requires At(toks, p + 2, OptionListTokens(d.options)) && a == p + 2 + |OptionListTokens(d.options)|
    requires At(toks, a, HeaderTokens(d)) && b == a + |HeaderTokens(d)|
    requires At(toks, b, BlockTokens(d)) && c == b + |BlockTokens(d)|
    ensures ConsumeLayout(toks, p + 1) == Ok(Meaning(d), c)
  {
    OptionsStage(toks, p, d, a);
    HeaderStage(toks, d, a, b);
    BodyStage(toks, d, b, c);
    BlockCompose(toks, p, d, a, b, c);
  }

  /** Any other valid declaration with its parts in place reads back as its
      record. */
  lemma ScalarRead(toks: seq<Token>, p: nat, d: Declaration, a: nat, b: nat, c: nat)
    requires ValidDeclaration(d) && !IsBlockDecl(d)
    requires Expect(toks, p + 1, OpenParen)
    requires At(toks, p + 2, OptionListTokens(d.options)) && a == p + 2 + |OptionListTokens(d.options)|
    requires At(toks, a, HeaderTokens(d)) && b == a + |HeaderTokens(d)| && c == b
    ensures ConsumeLayout(toks, p + 1) == Ok(Meaning(d), c)
  {
    OptionsStage(toks, p, d, a);
    HeaderStage(toks, d, a, b);
    ScalarCompose(toks, p, d, a, b, c);
  }

  /** Where the parts of a statement lie: `layout` at its start and at
      most a `;` after the tokens `consumeLayout` reads. */
  lemma StatementParts(toks: seq<Token>, p: nat, d: Declaration)
    requires At(toks, p, StatementTokens(d))
    ensures At(toks, p, LayoutTokens(d))
    ensures LayoutAt(toks, p)
    ensures Skipped(toks, p + |LayoutTokens(d)|, p + |StatementTokens(d)|)
  {
    var l := LayoutTokens(d);
    var semi := if IsBlockDecl(d) then [] else [Tok(SemiColon, ";")];
    AtSplit(toks, p, l, semi);
    AtAll(toks, p, l);
    assert toks[p + 0] == l[0];
    AtAll(toks, p + |l|, semi);
    if !IsBlockDecl(d) {
      assert toks[p + |l| + 0] == semi[0];
    }
  }

  /** One statement is one step: the scan finds `layout` at its start,
      `consumeLayout` reads its record, and what follows up to the end of
      the statement is at most a `;`. */
  lemma StatementRead(toks: seq<Token>, p: nat, d: Declaration, found: seq<Layout>)
    requires ValidDeclaration(d) && At(toks, p, StatementTokens(d))
    ensures Scan(toks, p, found) == Scan(toks, p + |StatementTokens(d)|, found + [Meaning(d)])
  {
    var l := Meaning(d);
    var m := p + |LayoutTokens(d)|;
    var q := p + |StatementTokens(d)|;
    assert LayoutAt(toks, p) && Skipped(toks, m, q) by {
      StatementParts(toks, p, d);
    }
    assert ConsumeLayout(toks, p + 1) == Ok(l, m) by {
      StatementParts(toks, p, d);
      ConsumeLayoutRead(toks, p, d);
    }
    ScanStep(toks, p, l, m, q, found);
  }

  /** Where each statement of a program starts, and where the last ends. */
  function Starts(ds: seq<Declaration>): seq<nat> {
    Offsets(StatementTokens, 0, ds)
  }

  /** The records of a program are those of its statements. */
  lemma {:induction false} MeaningsAt(ds: seq<Declaration>)
    requires AllValid(ds)
    ensures |Meanings(ds)| == |ds|
    ensures forall k :: 0 <= k < |ds| ==> ValidDeclaration(ds[k]) && Meanings(ds)[k] == Meaning(ds[k])
    decreases |ds|
  {
    if |ds| > 0 {
      assert AllValid(ds[1..]) by {
        forall k | 0 <= k < |ds[1..]| ensures ValidDeclaration(ds[1..][k]) {
          assert ds[1..][k] == ds[k + 1];
        }
      }
      MeaningsAt(ds[1..]);
      forall k | 1 <= k < |ds| ensures Meanings(ds)[k] == Meaning(ds[k]) {
        assert ds[k] == ds[1..][k - 1];
      }
    }
  }

  /** Each statement of a program is one step of the scan, whatever the
      scan has found before it. */
  lemma ProgramSteps(toks: seq<Token>, ds: seq<Declaration>)
    requires AllValid(ds) && At(toks, 0, ProgramTokens(ds))
    ensures |Meanings(ds)| == |ds|
    ensures forall k, f :: 0 <= k < |ds|
              ==> Scan(toks, Starts(ds)[k], f) == Scan(toks, Starts(ds)[k + 1], f + [Meanings(ds)[k]])
  {
    MeaningsAt(ds);
    forall k, f | 0 <= k < |ds|
      ensures Scan(toks, Starts(ds)[k], f) == Scan(toks, Starts(ds)[k + 1], f + [Meanings(ds)[k]])
    {
      ProgramStep(toks, ds, k, f);
    }
  }

  lemma ProgramStep(toks: seq<Token>, ds: seq<Declaration>, k: nat, f: seq<Layout>)
    requires AllValid(ds) && At(toks, 0, ProgramTokens(ds)) && k < |ds|
    ensures |Meanings(ds)| == |ds|
    ensures Scan(toks, Starts(ds)[k], f) == Scan(toks, Starts(ds)[k + 1], f + [Meanings(ds)[k]])
  {
    MeaningsAt(ds);
    JoinAt(toks, 0, StatementTokens, ds, k);
    StatementRead(toks, Starts(ds)[k], ds[k], f);
  }

  /** `parse` over the spelling of valid statements succeeds and appends
      their records, in order, to what the object already holds. */
  lemma ParseProgram(layoutInfo: seq<Layout>, ds: seq<Declaration>)
    requires AllValid(ds)
    ensures ParseTokens(layoutInfo, ProgramTokens(ds)) == ParseResult(layoutInfo + Meanings(ds), Success)
  {
    var toks := ProgramTokens(ds);
    AtFromAll(toks, 0, toks);
    ProgramParses(layoutInfo, toks, ds);
  }

  lemma ProgramParses(layoutInfo: seq<Layout>, toks: seq<Token>, ds: seq<Declaration>)
    requires AllValid(ds) && At(toks, 0, ProgramTokens(ds)) && |toks| == |ProgramTokens(ds)|
    ensures ParseTokens(layoutInfo, toks) == ParseResult(layoutInfo + Meanings(ds), Success)
  {
    var run := (i: nat, f: seq<Layout>) => Scan(toks, i, f);
    ProgramSteps(toks, ds);
    RunOfSteps(run, Starts(ds), Meanings(ds), layoutInfo);
    ParseRun(layoutInfo, toks, Meanings(ds));
  }

  // ---------------------------------------------------------------------
  // Rejected declarations
  // ---------------------------------------------------------------------

  /** The tokens before the qualifiers: `layout`, `(` and the options. */
  lemma LeadParts(toks: seq<Token>, p: nat, opts: seq<OptionDecl>, tail: seq<Token>)
    requires At(toks, p, [Tok(LayoutKw, "layout"), Tok(OpenParen, "(")] + OptionListTokens(opts) + tail)
    ensures Expect(toks, p + 1, OpenParen)
    ensures At(toks, p + 2, OptionListTokens(opts))
    ensures At(toks, p + 2 + |OptionListTokens(opts)|, tail)
  {
    var start := [Tok(LayoutKw, "layout"), Tok(OpenParen, "(")];
    AtSplit(toks, p, start + OptionListTokens(opts), tail);
    AtSplit(toks, p, start, OptionListTokens(opts));
    AtAll(toks, p, start);
    assert toks[p + 1] == start[1];
  }

  /** The stages up to a failing qualifier stage. */
  lemma ConsumeLayoutFails(toks: seq<Token>, p: nat, opts: map<string, int32>, a: nat, e: ParseError)
    requires Expect(toks, p, OpenParen)
    requires Options(toks, p + 1, map[]) == Ok(opts, a)
    requires Qualifiers(toks, a, opts) == Fail(e)
    ensures ConsumeLayout(toks, p) == Fail(e)
  {
  }

  /** `in` followed by `;` fails the qualifier stage at the `;`. */
  lemma InWithoutTypeQualifiers(toks: seq<Token>, q: nat, opts: map<string, int32>)
    requires At(toks, q, [Tok(InKw, "in"), Tok(SemiColon, ";")])
    ensures Qualifiers(toks, q, opts) == Fail(Unexpected(q + 1))
  {
    var tail := [Tok(InKw, "in"), Tok(SemiColon, ";")];
    AtAll(toks, q, tail);
    assert toks[q + 0] == tail[0] && toks[q + 1] == tail[1];
    assert MemoryQualifiers(toks, q, []) == Ok([], q);
  }

  /** `layout(...) in;` is rejected: `in` wants a type name and finds `;`. */
  lemma InWithoutTypeRejected(toks: seq<Token>, p: nat, opts: seq<OptionDecl>)
    requires |opts| > 0 && forall k :: 0 <= k < |opts| ==> ValidOption(opts[k])
    requires At(toks, p, [Tok(LayoutKw, "layout"), Tok(OpenParen, "(")] + OptionListTokens(opts)
                         + [Tok(InKw, "in"), Tok(SemiColon, ";")])
    ensures ConsumeLayout(toks, p + 1) == Fail(Unexpected(p + 3 + |OptionListTokens(opts)|))
  {
    var q := p + 2 + |OptionListTokens(opts)|;
    LeadParts(toks, p, opts, [Tok(InKw, "in"), Tok(SemiColon, ";")]);
    OptionsRead(toks, p + 2, opts, map[]);
    InWithoutTypeQualifiers(toks, q, OptionMap(map[], opts));
    ConsumeLayoutFails(toks, p + 1, OptionMap(map[], opts), q, Unexpected(q + 1));
  }

  /** Plain `uniform` and a name followed by `{` fail the qualifier stage at
      the `{`. */
  lemma UniformBlockQualifiers(toks: seq<Token>, q: nat, d: Declaration, opts: map<string, int32>)
    requires d.storage == UniformStorage && "std140" !in opts
    requires At(toks, q, QualifierTokens(d.qualifiers) + [StorageToken(d.storage), Tok(Identifier, d.name)]
                         + BlockTokens(d))
    ensures Qualifiers(toks, q, opts) == Fail(Unexpected(q + |d.qualifiers| + 2))
  {
    var quals := QualifierTokens(d.qualifiers);
    var names := [StorageToken(d.storage), Tok(Identifier, d.name)];
    var b := BlockTokens(d);
    var u := q + |d.qualifiers|;
    AtSplit(toks, q, quals + names, b);
    AtSplit(toks, q, quals, names);
    AtAll(toks, u, names);
    AtAll(toks, u + 2, b);
    assert toks[u + 0] == names[0] && toks[u + 1] == names[1];
    assert toks[u + 2 + 0] == b[0];
    MemoryQualifiersRead(toks, q, d.qualifiers, []);
  }

  /** An option list that does not name `std140` reads back as a map
      without that key. */
  lemma OptionsWithoutStd140(toks: seq<Token>, p: nat, opts: seq<OptionDecl>, q: nat)
    requires |opts| > 0 && forall k :: 0 <= k < |opts| ==> ValidOption(opts[k])
    requires !HasStd140(opts) && At(toks, p, OptionListTokens(opts)) && q == p + |OptionListTokens(opts)|
    ensures Options(toks, p, map[]) == Ok(OptionMap(map[], opts), q)
    ensures "std140" !in OptionMap(map[], opts)
  {
    OptionsRead(toks, p, opts, map[]);
    OptionMapStd140(map[], opts);
  }

  /** A `uniform` block whose options do not name `std140` is rejected:
      plain `uniform` wants a type name and a name, and finds `{` after the
      block's name. */
  lemma UniformBlockWithoutStd140Rejected(toks: seq<Token>, p: nat, d: Declaration)
    requires ValidDeclaration(d) && d.storage == UniformStorage && !HasStd140(d.options)
    requires At(toks, p, [Tok(LayoutKw, "layout"), Tok(OpenParen, "(")] + OptionListTokens(d.options)
                         + (QualifierTokens(d.qualifiers) + [StorageToken(d.storage), Tok(Identifier, d.name)]
                            + BlockTokens(d)))
    ensures ConsumeLayout(toks, p + 1)
         == Fail(Unexpected(p + 4 + |OptionListTokens(d.options)| + |d.qualifiers|))
  {
    var q := p + 2 + |OptionListTokens(d.options)|;
    var opts := OptionMap(map[], d.options);
    LeadParts(toks, p, d.options, QualifierTokens(d.qualifiers) + [StorageToken(d.storage), Tok(Identifier, d.name)]
                                  + BlockTokens(d));
    OptionsWithoutStd140(toks, p + 2, d.options, q);
    UniformBlockQualifiers(toks, q, d, opts);
    ConsumeLayoutFails(toks, p + 1, opts, q, Unexpected(q + |d.qualifiers| + 2));
  }
}
