/**
 * `ShaderInfo::parse` on the text of a shader: the tokenizer, then the
 * scan. The round trips of `DeclarationProperties` are stated for the
 * spelled tokens themselves; since the parser never reads a token's line,
 * they carry over to any tokens with the same tags and lexemes, and from
 * there to the text the tokenizer reads: a program written out with its
 * tokens separated by white space (one token per line, say) parses to the
 * records it denotes.
 */
module Shader {
  import opened Tokens
  import opened Lexer
  import opened LexerProperties
  import opened LayoutModel
  import opened Parser
  import opened ParserProperties
  import opened Grammar
  import opened GrammarProperties
  import opened DeclarationProperties
  import opened Numbers

  /** `ShaderInfo::parse`: tokenizes the source, then scans the tokens. The
      object only ever gains valid declarations, at most one per `layout`
      keyword of the text. */
  function Parse(layoutInfo: seq<Layout>, source: string): (r: ParseResult)
    ensures layoutInfo <= r.layouts
    ensures forall k :: |layoutInfo| <= k < |r.layouts| ==> ValidLayout(r.layouts[k])
    ensures |r.layouts| <= |layoutInfo| + LayoutCount(Tokenize(source), 0)
  {
    ParseTokens(layoutInfo, Tokenize(source))
  }

  // ---------------------------------------------------------------------
  // Round trips on tokens from any line
  // ---------------------------------------------------------------------

  /** `toks` holds tokens with the tags and lexemes of `t` from index `p`,
      whatever their lines. */
  predicate AtText(toks: seq<Token>, p: nat, t: seq<Token>) {
    p + |t| <= |toks| && SameText(toks[p..p + |t|], t)
  }

  /** Writing `t` over tokens with its text, from index `p`, puts it in
      place and changes no tag and no lexeme. */
  lemma SpliceText(toks: seq<Token>, p: nat, t: seq<Token>) returns (s: seq<Token>)
    requires AtText(toks, p, t)
    ensures At(s, p, t)
    ensures SameText(toks, s)
  {
    s := toks[..p] + t + toks[p + |t|..];
    assert s[p..p + |t|] == t;
    forall k | 0 <= k < |toks| ensures s[k].kind == toks[k].kind && s[k].lexeme == toks[k].lexeme {
      if p <= k < p + |t| {
        assert s[k] == t[k - p];
        assert toks[p..p + |t|][k - p] == toks[k];
      }
    }
  }

  /** `consumeLayout` reads a valid declaration back as the record it
      denotes from tokens on any lines. */
  lemma ConsumeLayoutReadText(toks: seq<Token>, p: nat, d: Declaration)
    requires ValidDeclaration(d) && AtText(toks, p, LayoutTokens(d))
    ensures ConsumeLayout(toks, p + 1) == Ok(Meaning(d), p + |LayoutTokens(d)|)
  {
    var s := SpliceText(toks, p, LayoutTokens(d));
    ConsumeLayoutRead(s, p, d);
    ConsumeLayoutSameText(toks, s, p + 1);
  }

  /** One statement on any lines is one step of the scan. */
  lemma StatementReadText(toks: seq<Token>, p: nat, d: Declaration, found: seq<Layout>)
    requires ValidDeclaration(d) && AtText(toks, p, StatementTokens(d))
    ensures Scan(toks, p, found) == Scan(toks, p + |StatementTokens(d)|, found + [Meaning(d)])
  {
    var t := StatementTokens(d);
    var s := SpliceText(toks, p, t);
    assert At(s, p, t);
    StatementRead(s, p, d, found);
    ScanStepText(toks, s, p, |t|, found, found + [Meaning(d)]);
  }

  /** A step of the scan over tokens is a step over any tokens with their
      text. */
  lemma ScanStepText(a: seq<Token>, b: seq<Token>, p: nat, n: nat, found: seq<Layout>, more: seq<Layout>)
    requires SameText(a, b) && Scan(b, p, found) == Scan(b, p + n, more)
    ensures Scan(a, p, found) == Scan(a, p + n, more)
  {
    ScanSameText(a, b, p, found);
    ScanSameText(a, b, p + n, more);
  }

  /** `parse` of tokens with the text of valid statements, on whatever
      lines, succeeds and appends their records in order. */
  lemma ProgramParsesText(layoutInfo: seq<Layout>, toks: seq<Token>, ds: seq<Declaration>)
    requires AllValid(ds) && SameText(toks, ProgramTokens(ds))
    ensures ParseTokens(layoutInfo, toks) == ParseResult(layoutInfo + Meanings(ds), Success)
  {
    ParseProgram(layoutInfo, ds);
    ParseIgnoresLines(layoutInfo, toks, ProgramTokens(ds));
  }

  // ---------------------------------------------------------------------
  // From text
  // ---------------------------------------------------------------------

  /** The text of a token sequence: every lexeme followed by the blank `sep`. */
  function Spell(t: seq<Token>, sep: char): string {
    if |t| == 0 then [] else t[0].lexeme + [sep] + Spell(t[1..], sep)
  }

  predicate AllWellFormed(t: seq<Token>) {
    forall k :: 0 <= k < |t| ==> WellFormed(t[k])
  }

  /** The lexeme of a well-formed token is that token alone. */
  lemma OneToken(t: Token, line: nat)
    requires WellFormed(t)
    ensures TokenizeFrom(t.lexeme, line) == [Token(t.kind, t.lexeme, line)]
  {
    var w := t.lexeme;
    assert w + [] == w;
    if IsAlpha(w[0]) {
      WordIsOneToken(w, [], line);
    } else if IsDigit(w[0]) {
      NumberIsOneToken(w, [], line);
    } else {
      assert w == [w[0]] && w[1..] == [];
      assert TokenizeFrom(w[1..], line) == [];
    }
  }

  lemma SameTextCons(t: Token, rest: seq<Token>, u: Token, us: seq<Token>)
    requires t.kind == u.kind && t.lexeme == u.lexeme && SameText(rest, us)
    ensures SameText([t] + rest, [u] + us)
  {
    forall k | 0 <= k < 1 + |rest| ensures ([t] + rest)[k].kind == ([u] + us)[k].kind && ([t] + rest)[k].lexeme == ([u] + us)[k].lexeme {
      if k > 0 {
        assert ([t] + rest)[k] == rest[k - 1] && ([u] + us)[k] == us[k - 1];
      }
    }
  }

  /** The tokenizer splits the text of well-formed tokens back into tokens
      with their tags and lexemes; only the lines are its own. */
  lemma {:induction false} TokenizeSpell(t: seq<Token>, sep: char, line: nat)
    requires IsSpace(sep) && AllWellFormed(t)
    ensures SameText(TokenizeFrom(Spell(t, sep), line), t)
    decreases |t|
  {
    if |t| > 0 {
      var rest := Spell(t[1..], sep);
      var next := line + Newlines(t[0].lexeme + [sep]);
      assert Spell(t, sep) == t[0].lexeme + [sep] + rest;
      BlankSeparates(t[0].lexeme, sep, rest, line);
      OneToken(t[0], line);
      TokenizeSpell(t[1..], sep, next);
      SameTextCons(Token(t[0].kind, t[0].lexeme, line), TokenizeFrom(rest, next), t[0], t[1..]);
      assert [t[0]] + t[1..] == t;
    }
  }

  // ---------------------------------------------------------------------
  // The spelling of a writable declaration is made of well-formed tokens
  // ---------------------------------------------------------------------

  lemma AllWellFormedAppend(a: seq<Token>, b: seq<Token>)
    requires AllWellFormed(a) && AllWellFormed(b)
    ensures AllWellFormed(a + b)
  {
    forall k | 0 <= k < |a + b| ensures WellFormed((a + b)[k]) {
      if k >= |a| {
        assert (a + b)[k] == b[k - |a|];
      }
    }
  }

  lemma WordToken(k: TokenKind, w: string)
    requires |w| > 0 && IsAlpha(w[0]) && (forall i :: 0 <= i < |w| ==> IsWordChar(w[i]))
    requires k == WordKind(w)
    ensures WellFormed(Tok(k, w))
  {
  }

  lemma PunctuationToken(k: TokenKind, c: char)
    requires !IsAlnum(c) && !IsSpace(c) && k == CharKind(c)
    ensures WellFormed(Tok(k, [c]))
  {
  }

  lemma NumeralToken(n: nat)
    ensures WellFormed(Tok(Numeric, DecimalText(n)))
  {
    var w := DecimalText(n);
    assert IsDigit(w[0]);
  }

  lemma OptionTokensWellFormed(o: OptionDecl, last: bool)
    requires IsIdentifier(o.key)
    ensures AllWellFormed(OptionTokens(o, last))
  {
    PunctuationToken(EqualSign, '=');
    PunctuationToken(Comma, ',');
    PunctuationToken(CloseParen, ')');
    NumeralToken(if o.Assign? then o.value else 0);
  }

  lemma {:induction false} OptionListWellFormed(opts: seq<OptionDecl>)
    requires forall k :: 0 <= k < |opts| ==> IsIdentifier(opts[k].key)
    ensures AllWellFormed(OptionListTokens(opts))
    decreases |opts|
  {
    if |opts| == 0 {
      PunctuationToken(CloseParen, ')');
    } else if |opts| == 1 {
      OptionTokensWellFormed(opts[0], true);
    } else {
      OptionTokensWellFormed(opts[0], false);
      OptionListWellFormed(opts[1..]);
      AllWellFormedAppend(OptionTokens(opts[0], false), OptionListTokens(opts[1..]));
    }
  }

  lemma {:induction false} QualifierTokensWellFormed(qs: seq<string>)
    requires forall k :: 0 <= k < |qs| ==> qs[k] == "readonly" || qs[k] == "writeonly"
    ensures AllWellFormed(QualifierTokens(qs))
    decreases |qs|
  {
    if |qs| > 0 {
      WordToken(MemoryQualifier, qs[0]);
      QualifierTokensWellFormed(qs[1..]);
      AllWellFormedAppend([Tok(MemoryQualifier, qs[0])], QualifierTokens(qs[1..]));
    }
  }

  lemma StorageTokenWellFormed(s: Storage)
    ensures WellFormed(StorageToken(s))
  {
    match s
    case InStorage => WordToken(InKw, "in");
    case OutStorage => WordToken(OutKw, "out");
    case UniformStorage => WordToken(UniformKw, "uniform");
    case BufferStorage => WordToken(BufferKw, "buffer");
  }

  lemma HeaderWellFormed(d: Declaration)
    requires Writable(d)
    ensures AllWellFormed(HeaderTokens(d))
  {
    var names := if IsBlockDecl(d) then [Tok(Identifier, d.name)]
                 else [Tok(Identifier, d.typeName), Tok(Identifier, d.name)];
    QualifierTokensWellFormed(d.qualifiers);
    StorageTokenWellFormed(d.storage);
    AllWellFormedAppend(QualifierTokens(d.qualifiers), [StorageToken(d.storage)]);
    AllWellFormedAppend(QualifierTokens(d.qualifiers) + [StorageToken(d.storage)], names);
  }

  lemma MemberTokensWellFormed(m: MemberDecl)
    requires IsIdentifier(m.typeName) && IsIdentifier(m.name)
    ensures AllWellFormed(MemberTokens(m))
  {
    PunctuationToken(SemiColon, ';');
    PunctuationToken(OpenSquare, '[');
    PunctuationToken(CloseSquare, ']');
    NumeralToken(if m.shape.Sized? then m.shape.count else 0);
  }

  lemma {:induction false} MemberListWellFormed(ms: seq<MemberDecl>)
    requires forall k :: 0 <= k < |ms| ==> IsIdentifier(ms[k].typeName) && IsIdentifier(ms[k].name)
    ensures AllWellFormed(MemberListTokens(ms))
    decreases |ms|
  {
    if |ms| > 0 {
      MemberTokensWellFormed(ms[0]);
      MemberListWellFormed(ms[1..]);
      AllWellFormedAppend(MemberTokens(ms[0]), MemberListTokens(ms[1..]));
    }
  }

  lemma {:induction false} IdentifierTokensWellFormed(ws: seq<string>)
    requires forall k :: 0 <= k < |ws| ==> IsIdentifier(ws[k])
    ensures AllWellFormed(IdentifierTokens(ws))
    decreases |ws|
  {
    if |ws| > 0 {
      IdentifierTokensWellFormed(ws[1..]);
      AllWellFormedAppend([Tok(Identifier, ws[0])], IdentifierTokens(ws[1..]));
    }
  }

  lemma BlockWellFormed(d: Declaration)
    requires Writable(d) && IsBlockDecl(d)
    ensures AllWellFormed(BlockTokens(d))
  {
    PunctuationToken(OpenCurly, '{');
    PunctuationToken(CloseCurly, '}');
    PunctuationToken(SemiColon, ';');
    MemberListWellFormed(d.members);
    IdentifierTokensWellFormed(d.instances);
    AllWellFormedAppend([Tok(CloseCurly, "}")], IdentifierTokens(d.instances));
    AllWellFormedAppend([Tok(CloseCurly, "}")] + IdentifierTokens(d.instances), [Tok(SemiColon, ";")]);
    AllWellFormedAppend([Tok(OpenCurly, "{")], MemberListTokens(d.members));
    AllWellFormedAppend([Tok(OpenCurly, "{")] + MemberListTokens(d.members), ClosingTokens(d.instances));
  }

  lemma StatementWellFormed(d: Declaration)
    requires Writable(d)
    ensures AllWellFormed(StatementTokens(d))
  {
    var lead := [Tok(LayoutKw, "layout"), Tok(OpenParen, "(")];
    var block := if IsBlockDecl(d) then BlockTokens(d) else [];
    var end := if IsBlockDecl(d) then [] else [Tok(SemiColon, ";")];
    WordToken(LayoutKw, "layout");
    PunctuationToken(OpenParen, '(');
    PunctuationToken(SemiColon, ';');
    OptionListWellFormed(d.options);
    HeaderWellFormed(d);
    if IsBlockDecl(d) {
      BlockWellFormed(d);
    }
    AllWellFormedAppend(lead, OptionListTokens(d.options));
    AllWellFormedAppend(lead + OptionListTokens(d.options), HeaderTokens(d));
    AllWellFormedAppend(lead + OptionListTokens(d.options) + HeaderTokens(d), block);
    assert LayoutTokens(d) == lead + OptionListTokens(d.options) + HeaderTokens(d) + block;
    AllWellFormedAppend(LayoutTokens(d), end);
  }

  lemma {:induction false} ProgramWellFormed(ds: seq<Declaration>)
    requires AllWritable(ds)
    ensures AllWellFormed(ProgramTokens(ds))
    decreases |ds|
  {
    if |ds| > 0 {
      assert Writable(ds[0]);
      assert AllWritable(ds[1..]) by {
        forall k | 0 <= k < |ds[1..]| ensures Writable(ds[1..][k]) {
          assert ds[1..][k] == ds[k + 1];
        }
      }
      StatementWellFormed(ds[0]);
      ProgramWellFormed(ds[1..]);
      AllWellFormedAppend(StatementTokens(ds[0]), ProgramTokens(ds[1..]));
    }
  }

  /** The text of a program of valid, writable declarations, with its tokens
      separated by any white space (newlines included, so the tokens may sit
      on many lines), parses to the records of the declarations, in order,
      after what the object held. */
  lemma ParseProgramText(layoutInfo: seq<Layout>, ds: seq<Declaration>, sep: char)
    requires AllValid(ds) && AllWritable(ds) && IsSpace(sep)
    ensures Parse(layoutInfo, Spell(ProgramTokens(ds), sep)) == ParseResult(layoutInfo + Meanings(ds), Success)
  {
    ProgramWellFormed(ds);
    TokenizeSpell(ProgramTokens(ds), sep, 1);
    ProgramParsesText(layoutInfo, Tokenize(Spell(ProgramTokens(ds), sep)), ds);
  }
}
