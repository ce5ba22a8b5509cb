/**
 * The recursive-descent layout parser of shader-parser.cpp: the two `expect`
 * primitives, the three stages of `consumeLayout` and the scan of
 * `ShaderInfo::parse`.
 *
 * The source walks an iterator that it advances before every expectation.
 * Here every stage takes the token sequence and `pos`, the index of the next
 * token it examines (one past the source's iterator), and returns either the
 * value it built with the index just past the last token it consumed, or the
 * error that stopped it. An index equal to `|toks|` is the end of input.
 */
module Parser {
  import opened Tokens
  import opened LayoutModel
  import opened Numbers

  /** Why a stage stopped: an expectation that failed at token `at` (the
      source logs and returns false), or a numeric lexeme at `at` that
      `std::stoi` rejects by throwing. */
  datatype ParseError =
    | Unexpected(at: nat)
    | NoDigits(at: nat)
    | NumberOutOfRange(at: nat)
  {
    /** Whether the source reports this error by throwing rather than by
        returning false. */
    predicate Throws() {
      !Unexpected?
    }
  }

  /** The result of one stage. */
  datatype Step<T> = Ok(value: T, next: nat) | Fail(error: ParseError)

  /** `expect` with a single tag. */
  predicate Expect(toks: seq<Token>, pos: nat, k: TokenKind) {
    pos < |toks| && toks[pos].kind == k
  }

  /** `expect` with a list of tags: the next token exists and its tag is one of them. */
  predicate Accepts(toks: seq<Token>, pos: nat, kinds: seq<TokenKind>) {
    pos < |toks| && toks[pos].kind in kinds
  }

  /** `expect` with a list of tags, as the source computes it: a walk over the
      list that stops at the first tag equal to the token's. */
  method ExpectAny(toks: seq<Token>, pos: nat, kinds: seq<TokenKind>) returns (found: bool)
    ensures found <==> Accepts(toks, pos, kinds)
  {
    if pos >= |toks| {
      return false;
    }
    var i := 0;
    while i < |kinds|
      invariant 0 <= i <= |kinds|
      invariant toks[pos].kind !in kinds[..i]
    {
      if toks[pos].kind == kinds[i] {
        return true;
      }
      i := i + 1;
    }
    assert kinds[..i] == kinds;
    return false;
  }

  /** The single-tag `expect` is the list form with a one-tag list: it
      fails at the end of the input and on any other tag. */
  lemma ExpectOne(toks: seq<Token>, pos: nat, k: TokenKind)
    ensures Expect(toks, pos, k) <==> Accepts(toks, pos, [k])
    ensures pos >= |toks| ==> !Expect(toks, pos, k)
  {
  }

  /** No token in `[lo, hi)` is the `layout` keyword. */
  predicate NoLayoutIn(toks: seq<Token>, lo: nat, hi: nat) {
    forall k :: lo <= k < hi && k < |toks| ==> toks[k].kind != LayoutKw
  }

  /** Converts the numeric lexeme at `at`; a failed conversion is the
      exception `std::stoi` throws. */
  function Convert(toks: seq<Token>, at: nat): (r: Step<int32>)
    requires at < |toks|
    ensures r.Ok? ==> r.next == at + 1
    ensures r.Fail? ==> r.error.Throws() && r.error.at == at
  {
    match Stoi(toks[at].lexeme)
    case Converted(v) => Ok(v, at + 1)
    case InvalidArgument => Fail(NoDigits(at))
    case OutOfRange => Fail(NumberOutOfRange(at))
  }

  /** What follows an option key, from the token after it: `,` or `)`
      alone give the value 0, `= N ,` or `= N )` give N. The flag says
      whether the list ended; `next` is just past the separator. */
  function OptionValue(toks: seq<Token>, pos: nat): (r: Step<(int32, bool)>)
    ensures r.Ok? ==> pos < r.next <= |toks| && NoLayoutIn(toks, pos, r.next)
    ensures r.Ok? ==> toks[r.next - 1].kind == if r.value.1 then CloseParen else Comma
    ensures r.Fail? ==> pos <= r.error.at
  {
    if !Accepts(toks, pos, [EqualSign, Comma, CloseParen]) then Fail(Unexpected(pos))
    else if toks[pos].kind == Comma then Ok((0, false), pos + 1)
    else if toks[pos].kind == CloseParen then Ok((0, true), pos + 1)
    else if !Expect(toks, pos + 1, Numeric) then Fail(Unexpected(pos + 1))
    else match Convert(toks, pos + 1)
      case Fail(e) => Fail(e)
      case Ok(v, _) =>
        if !Accepts(toks, pos + 2, [Comma, CloseParen]) then Fail(Unexpected(pos + 2))
        else Ok((v, toks[pos + 2].kind == CloseParen), pos + 3)
  }

  /** `consumeLayoutOptions`, from the token after `(`: one or more keys, each
      bare or `= N`, separated by `,` and closed by `)`. A bare key stores 0;
      a later write to a key replaces the earlier one. */
  function Options(toks: seq<Token>, pos: nat, opts: map<string, int32>): (r: Step<map<string, int32>>)
    ensures r.Ok? ==> pos + 2 <= r.next <= |toks| && NoLayoutIn(toks, pos, r.next)
    ensures r.Ok? ==> opts.Keys <= r.value.Keys && toks[pos].lexeme in r.value
    ensures r.Fail? ==> pos <= r.error.at
    decreases |toks| - pos
  {
    if !Expect(toks, pos, Identifier) then Fail(Unexpected(pos))
    else match OptionValue(toks, pos + 1)
      case Fail(e) => Fail(e)
      case Ok((v, closed), next) =>
        var updated := opts[toks[pos].lexeme := v];
        if closed then Ok(updated, next)
        else
          var r := Options(toks, next, updated);
          if r.Ok? then NoLayoutJoin(toks, pos, next, r.next); r else r
  }

  /** Two adjacent spans without a `layout` token make one. */
  lemma NoLayoutJoin(toks: seq<Token>, lo: nat, mid: nat, hi: nat)
    requires lo <= mid <= hi
    requires NoLayoutIn(toks, lo, mid) && NoLayoutIn(toks, mid, hi)
    ensures NoLayoutIn(toks, lo, hi)
  {
  }

  /** The storage keywords that end a qualifier list. */
  predicate IsStorageKeyword(k: TokenKind) {
    k == InKw || k == OutKw || k == UniformKw || k == BufferKw
  }

  /** The tags `consumeLayoutQualifiers` accepts at each qualifier position. */
  const QualifierKinds: seq<TokenKind> := [MemoryQualifier, InKw, OutKw, UniformKw, BufferKw]

  /** The memory qualifiers of a declaration, in order; `next` is the index
      of the storage keyword that follows them. */
  function MemoryQualifiers(toks: seq<Token>, pos: nat, acc: seq<string>): (r: Step<seq<string>>)
    ensures r.Ok? ==> pos <= r.next < |toks| && IsStorageKeyword(toks[r.next].kind)
    ensures r.Ok? ==> NoLayoutIn(toks, pos, r.next + 1)
    ensures r.Ok? ==> |r.value| == |acc| + (r.next - pos)
    ensures r.Fail? ==> r.error == Unexpected(r.error.at) && pos <= r.error.at
    decreases |toks| - pos
  {
    if !Accepts(toks, pos, QualifierKinds) then Fail(Unexpected(pos))
    else if toks[pos].kind == MemoryQualifier then MemoryQualifiers(toks, pos + 1, acc + [toks[pos].lexeme])
    else Ok(acc, pos)
  }

  /** The kind a storage keyword gives a declaration; `uniform` makes a
      uniform block exactly when the options name `std140`. */
  function StorageKind(k: TokenKind, opts: map<string, int32>): LayoutType {
    match k
    case InKw => AttribIn
    case OutKw => AttribOut
    case UniformKw => if "std140" in opts then UniformBuffer else Uniform
    case BufferKw => ShaderStorageBuffer
    case _ => LayoutType.Invalid
  }

  /** What `consumeLayoutQualifiers` fills in. */
  datatype Header = Header(kind: LayoutType, memoryQualifiers: seq<string>, typeQualifier: string, name: string)

  /** `consumeLayoutQualifiers`, from the token after `)`: memory
      qualifiers, a storage keyword, a type name for `in`, `out` and plain
      `uniform`, and the declared name. */
  function Qualifiers(toks: seq<Token>, pos: nat, opts: map<string, int32>): (r: Step<Header>)
    ensures r.Ok? ==> pos + 2 <= r.next <= |toks| && NoLayoutIn(toks, pos, r.next)
    ensures r.Ok? ==> r.value.kind != LayoutType.Invalid
    ensures r.Ok? && IsBlock(r.value.kind) ==> r.value.typeQualifier == ""
    ensures r.Ok? ==> (r.value.kind == UniformBuffer ==> "std140" in opts)
    ensures r.Ok? ==> (r.value.kind == Uniform ==> "std140" !in opts)
    ensures r.Fail? ==> r.error == Unexpected(r.error.at) && pos <= r.error.at
  {
    match MemoryQualifiers(toks, pos, [])
    case Fail(e) => Fail(e)
    case Ok(quals, q) =>
      var kind := StorageKind(toks[q].kind, opts);
      if HasTypeQualifier(kind) then
        if !Expect(toks, q + 1, Identifier) then Fail(Unexpected(q + 1))
        else if !Expect(toks, q + 2, Identifier) then Fail(Unexpected(q + 2))
        else Ok(Header(kind, quals, toks[q + 1].lexeme, toks[q + 2].lexeme), q + 3)
      else if !Expect(toks, q + 1, Identifier) then Fail(Unexpected(q + 1))
      else Ok(Header(kind, quals, "", toks[q + 1].lexeme), q + 2)
  }

  /** The identifiers between a block's `}` and its `;`, which the source
      reads and discards; `next` is just past the `;`. */
  function Trailer(toks: seq<Token>, pos: nat): (r: Step<()>)
    ensures r.Ok? ==> pos < r.next <= |toks| && toks[r.next - 1].kind == SemiColon
    ensures r.Ok? ==> NoLayoutIn(toks, pos, r.next)
    ensures r.Fail? ==> r.error == Unexpected(r.error.at) && pos <= r.error.at
    decreases |toks| - pos
  {
    if !Accepts(toks, pos, [SemiColon, Identifier]) then Fail(Unexpected(pos))
    else if toks[pos].kind == SemiColon then Ok((), pos + 1)
    else Trailer(toks, pos + 1)
  }

  /** The element count of an array member, from the token after `[`
      through the `;`: `N ] ;` gives N and `] ;` gives -1. */
  function ArraySize(toks: seq<Token>, pos: nat): (r: Step<int32>)
    ensures r.Ok? ==> pos + 2 <= r.next <= |toks| && NoLayoutIn(toks, pos, r.next)
    ensures r.Fail? ==> pos <= r.error.at
  {
    if !Accepts(toks, pos, [Numeric, CloseSquare]) then Fail(Unexpected(pos))
    else if toks[pos].kind == CloseSquare then
      if !Expect(toks, pos + 1, SemiColon) then Fail(Unexpected(pos + 1))
      else Ok(-1, pos + 2)
    else match Convert(toks, pos)
      case Fail(e) => Fail(e)
      case Ok(n, _) =>
        if !Expect(toks, pos + 1, CloseSquare) then Fail(Unexpected(pos + 1))
        else if !Expect(toks, pos + 2, SemiColon) then Fail(Unexpected(pos + 2))
        else Ok(n, pos + 3)
  }

  /** One member declaration, from its type name through its `;`: `T n;`,
      `T n[N];` or `T n[];`. `size` is the element count of the previous
      array member: the source reuses one record for every member and sets
      the count only for arrays, so a scalar member carries it along. */
  function Member(toks: seq<Token>, pos: nat, size: int32): (r: Step<Variable>)
    requires pos < |toks|
    ensures r.Ok? ==> pos + 3 <= r.next <= |toks| && NoLayoutIn(toks, pos + 1, r.next)
    ensures r.Ok? ==> r.value.typeName == toks[pos].lexeme && r.value.name == toks[pos + 1].lexeme
    ensures r.Ok? && !r.value.isArray ==> r.value.arraySize == size
    ensures r.Fail? ==> pos < r.error.at
  {
    var typeName := toks[pos].lexeme;
    if !Expect(toks, pos + 1, Identifier) then Fail(Unexpected(pos + 1))
    else
      var name := toks[pos + 1].lexeme;
      if !Accepts(toks, pos + 2, [OpenSquare, SemiColon]) then Fail(Unexpected(pos + 2))
      else if toks[pos + 2].kind == SemiColon then Ok(Variable(typeName, name, false, size), pos + 3)
      else match ArraySize(toks, pos + 3)
        case Fail(e) => Fail(e)
        case Ok(n, next) => Ok(Variable(typeName, name, true, n), next)
  }

  /** The members of a block, from the token after `{` through the `;` that
      ends the block; `size` is carried from member to member as `Member`
      describes. */
  function Members(toks: seq<Token>, pos: nat, body: seq<Variable>, size: int32): (r: Step<seq<Variable>>)
    ensures r.Ok? ==> pos < r.next <= |toks| && NoLayoutIn(toks, pos, r.next)
    ensures r.Ok? ==> body <= r.value
    ensures r.Fail? ==> pos <= r.error.at
    decreases |toks| - pos
  {
    if !Accepts(toks, pos, [Identifier, CloseCurly]) then Fail(Unexpected(pos))
    else if toks[pos].kind == CloseCurly then
      match Trailer(toks, pos + 1)
      case Fail(e) => Fail(e)
      case Ok(_, next) => Ok(body, next)
    else match Member(toks, pos, size)
      case Fail(e) => Fail(e)
      case Ok(v, next) => Members(toks, next, body + [v], v.arraySize)
  }

  /** `consumeLayoutVariables`, from the `{`. The first scalar member has no
      earlier count to carry; the source leaves it indeterminate and the
      model uses 0. */
  function Variables(toks: seq<Token>, pos: nat): (r: Step<seq<Variable>>)
    ensures r.Ok? ==> pos + 3 <= r.next <= |toks| && NoLayoutIn(toks, pos, r.next)
    ensures r.Fail? ==> pos <= r.error.at
  {
    if !Expect(toks, pos, OpenCurly) then Fail(Unexpected(pos))
    else Members(toks, pos + 1, [], 0)
  }

  /** The properties every extracted declaration has. */
  predicate ValidLayout(l: Layout) {
    && l.kind != LayoutType.Invalid
    && l.options.Keys != {}
    && (!IsBlock(l.kind) ==> l.body == [])
    && (IsBlock(l.kind) ==> l.typeQualifier == "")
    && (l.kind == UniformBuffer ==> "std140" in l.options)
    && (l.kind == Uniform ==> "std140" !in l.options)
  }

  /** `consumeLayout`, from the token after `layout`: `(`, the options, the
      qualifiers and, for a block, its members. */
  function ConsumeLayout(toks: seq<Token>, pos: nat): (r: Step<Layout>)
    ensures r.Ok? ==> pos < r.next <= |toks| && NoLayoutIn(toks, pos, r.next)
    ensures r.Ok? ==> ValidLayout(r.value)
    ensures r.Fail? ==> pos <= r.error.at
  {
    if !Expect(toks, pos, OpenParen) then Fail(Unexpected(pos))
    else match Options(toks, pos + 1, map[])
      case Fail(e) => Fail(e)
      case Ok(opts, p) =>
        match Qualifiers(toks, p, opts)
        case Fail(e) => Fail(e)
        case Ok(h, q) =>
          if IsBlock(h.kind) then
            match Variables(toks, q)
            case Fail(e) => Fail(e)
            case Ok(body, v) => Ok(Layout(h.kind, opts, h.memoryQualifiers, h.name, h.typeQualifier, body), v)
          else Ok(Layout(h.kind, opts, h.memoryQualifiers, h.name, h.typeQualifier, []), q)
  }

  /** How `parse` ended: it returned true, or a stage failed (it returned
      false, or `std::stoi` threw out of it). */
  datatype Outcome = Success | Failure(error: ParseError)

  /** The declarations held after `parse`, and how it ended. */
  datatype ParseResult = ParseResult(layouts: seq<Layout>, outcome: Outcome)

  /** The number of `layout` tokens at index `i` or later. */
  function LayoutCount(toks: seq<Token>, i: nat): nat
    decreases |toks| - i
  {
    if i >= |toks| then 0
    else (if toks[i].kind == LayoutKw then 1 else 0) + LayoutCount(toks, i + 1)
  }

  /** The scan of `parse` from index `i`, with `found` already held: every
      `layout` token starts a declaration, which is appended; the scan
      resumes after its last token. The first failure ends the scan. */
  function Scan(toks: seq<Token>, i: nat, found: seq<Layout>): (r: ParseResult)
    ensures found <= r.layouts
    ensures forall k :: |found| <= k < |r.layouts| ==> ValidLayout(r.layouts[k])
    ensures |r.layouts| <= |found| + LayoutCount(toks, i)
    decreases |toks| - i
  {
    if i >= |toks| then ParseResult(found, Success)
    else if toks[i].kind != LayoutKw then Scan(toks, i + 1, found)
    else match ConsumeLayout(toks, i + 1)
      case Fail(e) => ParseResult(found, Failure(e))
      case Ok(l, next) => LayoutCountSkip(toks, i + 1, next); Scan(toks, next, found + [l])
  }

  /** Tokens without a `layout` keyword add nothing to the count. */
  lemma {:induction false} LayoutCountSkip(toks: seq<Token>, lo: nat, hi: nat)
    requires lo <= hi && NoLayoutIn(toks, lo, hi)
    ensures LayoutCount(toks, lo) == LayoutCount(toks, hi)
    decreases hi - lo
  {
    if lo < hi && lo < |toks| {
      LayoutCountSkip(toks, lo + 1, hi);
    } else if lo < hi {
      LayoutCountPast(toks, lo);
      LayoutCountPast(toks, hi);
    }
  }

  lemma LayoutCountPast(toks: seq<Token>, i: nat)
    requires i >= |toks|
    ensures LayoutCount(toks, i) == 0
  {
  }

  /** `ShaderInfo::parse` over a token sequence: `layoutInfo` is what the
      object held before the call, and it is only ever appended to. */
  function ParseTokens(layoutInfo: seq<Layout>, toks: seq<Token>): ParseResult {
    Scan(toks, 0, layoutInfo)
  }
}
