/**
 * The declarations the layout parser understands, written as data, with
 * their token spelling and the record each one denotes. The round-trip
 * lemmas in `GrammarProperties` show that the parser reads back exactly the
 * denoted record from the spelling.
 */
module Grammar {
  import opened Tokens
  import opened Lexer
  import opened LayoutModel
  import opened Numbers

  /** One entry of the option list: a bare key, or `key = N`. */
  datatype OptionDecl = Flag(key: string) | Assign(key: string, value: nat)

  /** The storage keyword of a declaration. */
  datatype Storage = InStorage | OutStorage | UniformStorage | BufferStorage

  /** How a block member is declared: `T n;`, `T n[N];` or `T n[];`. */
  datatype ArrayDecl = Scalar | Sized(count: nat) | Unsized

  datatype MemberDecl = MemberDecl(typeName: string, name: string, shape: ArrayDecl)

  /** A whole declaration. `typeName` is used by the non-block forms,
      `members` and `instances` (the names after `}`) by blocks. */
  datatype Declaration = Declaration(
    options: seq<OptionDecl>,
    qualifiers: seq<string>,
    storage: Storage,
    typeName: string,
    name: string,
    members: seq<MemberDecl>,
    instances: seq<string>)

  /** A word the tokenizer tags as an identifier. */
  predicate IsIdentifier(w: string) {
    && |w| > 0
    && IsAlpha(w[0])
    && (forall k :: 0 <= k < |w| ==> IsWordChar(w[k]))
    && WordKind(w) == Identifier
  }

  /** Whether the option list names `std140`. */
  predicate HasStd140(opts: seq<OptionDecl>) {
    exists k :: 0 <= k < |opts| && opts[k].key == "std140"
  }

  /** Whether a declaration is a block, as the parser decides it. */
  predicate IsBlockDecl(d: Declaration) {
    d.storage == BufferStorage || (d.storage == UniformStorage && HasStd140(d.options))
  }

  /** A value that fits the 32-bit option map. */
  predicate ValidOption(o: OptionDecl) {
    o.Assign? ==> o.value <= Int32Max
  }

  /** A count that fits the 32-bit size field. */
  predicate ValidMember(m: MemberDecl) {
    m.shape.Sized? ==> m.shape.count <= Int32Max
  }

  /** The declarations whose tokens the parser accepts: at least one option
      and numbers that fit in 32 bits. The parser looks only at the tags of
      the names, so any lexeme will do at this level. */
  predicate ValidDeclaration(d: Declaration) {
    && |d.options| > 0
    && (forall k :: 0 <= k < |d.options| ==> ValidOption(d.options[k]))
    && (IsBlockDecl(d) ==> forall k :: 0 <= k < |d.members| ==> ValidMember(d.members[k]))
  }

  /** Every declaration of a program is valid. */
  predicate AllValid(ds: seq<Declaration>) {
    forall k :: 0 <= k < |ds| ==> ValidDeclaration(ds[k])
  }

  /** The declarations whose text the tokenizer splits back into their
      tokens: every name that is spelled is an identifier, and every memory
      qualifier is one of the two words the tokenizer tags as such. */
  predicate Writable(d: Declaration) {
    && (forall k :: 0 <= k < |d.options| ==> IsIdentifier(d.options[k].key))
    && (forall k :: 0 <= k < |d.qualifiers| ==> d.qualifiers[k] == "readonly" || d.qualifiers[k] == "writeonly")
    && IsIdentifier(d.name)
    && (!IsBlockDecl(d) ==> IsIdentifier(d.typeName))
    && (IsBlockDecl(d) ==> forall k :: 0 <= k < |d.members| ==> IsIdentifier(d.members[k].typeName) && IsIdentifier(d.members[k].name))
    && (IsBlockDecl(d) ==> forall k :: 0 <= k < |d.instances| ==> IsIdentifier(d.instances[k]))
  }

  /** Every declaration of a program can be written out as text. */
  predicate AllWritable(ds: seq<Declaration>) {
    forall k :: 0 <= k < |ds| ==> Writable(ds[k])
  }

  // ---------------------------------------------------------------------
  // Spelling
  // ---------------------------------------------------------------------

  /** A token on the first line. */
  function Tok(k: TokenKind, text: string): Token {
    Token(k, text, 1)
  }

  function OptionTokens(o: OptionDecl, last: bool): seq<Token> {
    [Tok(Identifier, o.key)]
    + (if o.Assign? then [Tok(EqualSign, "="), Tok(Numeric, DecimalText(o.value))] else [])
    + [if last then Tok(CloseParen, ")") else Tok(Comma, ",")]
  }

  /** The option list after `(`, through the closing `)`; an empty list is
      the `)` alone. */
  function OptionListTokens(opts: seq<OptionDecl>): seq<Token> {
    if |opts| == 0 then [Tok(CloseParen, ")")]
    else if |opts| == 1 then OptionTokens(opts[0], true)
    else OptionTokens(opts[0], false) + OptionListTokens(opts[1..])
  }

  function QualifierTokens(qs: seq<string>): (r: seq<Token>)
    ensures |r| == |qs|
  {
    if |qs| == 0 then [] else [Tok(MemoryQualifier, qs[0])] + QualifierTokens(qs[1..])
  }

  function StorageToken(s: Storage): Token {
    match s
    case InStorage => Tok(InKw, "in")
    case OutStorage => Tok(OutKw, "out")
    case UniformStorage => Tok(UniformKw, "uniform")
    case BufferStorage => Tok(BufferKw, "buffer")
  }

  /** The qualifiers, the storage keyword and the names after them: a
      block's name alone, or a type name and a name. */
  function HeaderTokens(d: Declaration): seq<Token> {
    QualifierTokens(d.qualifiers) + [StorageToken(d.storage)]
    + if IsBlockDecl(d) then [Tok(Identifier, d.name)]
      else [Tok(Identifier, d.typeName), Tok(Identifier, d.name)]
  }

  function MemberTokens(m: MemberDecl): seq<Token> {
    [Tok(Identifier, m.typeName), Tok(Identifier, m.name)]
    + match m.shape
      case Scalar => [Tok(SemiColon, ";")]
      case Sized(n) => [Tok(OpenSquare, "["), Tok(Numeric, DecimalText(n)), Tok(CloseSquare, "]"), Tok(SemiColon, ";")]
      case Unsized => [Tok(OpenSquare, "["), Tok(CloseSquare, "]"), Tok(SemiColon, ";")]
  }

  function MemberListTokens(ms: seq<MemberDecl>): seq<Token> {
    if |ms| == 0 then [] else MemberTokens(ms[0]) + MemberListTokens(ms[1..])
  }

  function IdentifierTokens(ws: seq<string>): (r: seq<Token>)
    ensures |r| == |ws|
  {
    if |ws| == 0 then [] else [Tok(Identifier, ws[0])] + IdentifierTokens(ws[1..])
  }

  /** What ends a block: `}`, the names after it and `;`. */
  function ClosingTokens(ws: seq<string>): seq<Token> {
    [Tok(CloseCurly, "}")] + IdentifierTokens(ws) + [Tok(SemiColon, ";")]
  }

  /** A block's member list through the `;` after it. */
  function BlockTokens(d: Declaration): seq<Token> {
    [Tok(OpenCurly, "{")] + MemberListTokens(d.members) + ClosingTokens(d.instances)
  }

  /** The tokens `consumeLayout` reads for a declaration, from `layout`. The
      `;` that ends a non-block declaration is not part of it. */
  function LayoutTokens(d: Declaration): seq<Token> {
    [Tok(LayoutKw, "layout"), Tok(OpenParen, "(")] + OptionListTokens(d.options)
    + HeaderTokens(d) + if IsBlockDecl(d) then BlockTokens(d) else []
  }

  /** A whole declaration statement: a non-block one ends with `;` too. */
  function StatementTokens(d: Declaration): seq<Token> {
    LayoutTokens(d) + if IsBlockDecl(d) then [] else [Tok(SemiColon, ";")]
  }

  /** The spellings of several items, one after the other. */
  function Join<D>(spell: D -> seq<Token>, ds: seq<D>): seq<Token> {
    if |ds| == 0 then [] else spell(ds[0]) + Join(spell, ds[1..])
  }

  /** Several statements, one after the other. */
  function ProgramTokens(ds: seq<Declaration>): seq<Token> {
    Join(StatementTokens, ds)
  }

  // ---------------------------------------------------------------------
  // Meaning
  // ---------------------------------------------------------------------

  function OptionValueOf(o: OptionDecl): int32
    requires ValidOption(o)
  {
    if o.Assign? then o.value as int32 else 0
  }

  /** The option map: entries applied left to right onto `m`. */
  function OptionMap(m: map<string, int32>, opts: seq<OptionDecl>): map<string, int32>
    requires forall k :: 0 <= k < |opts| ==> ValidOption(opts[k])
    decreases |opts|
  {
    if |opts| == 0 then m else OptionMap(m[opts[0].key := OptionValueOf(opts[0])], opts[1..])
  }

  function DeclaredKind(d: Declaration): LayoutType {
    match d.storage
    case InStorage => AttribIn
    case OutStorage => AttribOut
    case UniformStorage => if HasStd140(d.options) then UniformBuffer else Uniform
    case BufferStorage => ShaderStorageBuffer
  }

  /** The record of one member; `size` is the count a scalar member
      carries over from the previous member. */
  function MemberMeaning(m: MemberDecl, size: int32): Variable
    requires ValidMember(m)
  {
    match m.shape
    case Scalar => Variable(m.typeName, m.name, false, size)
    case Sized(n) => Variable(m.typeName, m.name, true, n as int32)
    case Unsized => Variable(m.typeName, m.name, true, -1)
  }

  /** The member records, with a scalar member's count carried over from
      the previous array member as the parser does. */
  function Body(ms: seq<MemberDecl>, size: int32): seq<Variable>
    requires forall k :: 0 <= k < |ms| ==> ValidMember(ms[k])
  {
    if |ms| == 0 then []
    else
      assert ValidMember(ms[0]);
      var v := MemberMeaning(ms[0], size);
      [v] + Body(ms[1..], v.arraySize)
  }

  /** The record a valid declaration denotes. */
  function Meaning(d: Declaration): Layout
    requires ValidDeclaration(d)
  {
    Layout(
      DeclaredKind(d),
      OptionMap(map[], d.options),
      d.qualifiers,
      d.name,
      if IsBlockDecl(d) then "" else d.typeName,
      if IsBlockDecl(d) then Body(d.members, 0) else [])
  }

  function Meanings(ds: seq<Declaration>): seq<Layout>
    requires AllValid(ds)
  {
    if |ds| == 0 then []
    else
      assert ValidDeclaration(ds[0]) && AllValid(ds[1..]) by {
        forall k | 0 <= k < |ds[1..]| ensures ValidDeclaration(ds[1..][k]) {
          assert ds[1..][k] == ds[k + 1];
        }
      }
      [Meaning(ds[0])] + Meanings(ds[1..])
  }
}
