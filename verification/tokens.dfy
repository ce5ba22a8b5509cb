/**
 * Tokens of the shader layout extractor: the twenty token tags of
 * shader-parser.cpp (counting `Invalid`), the token record and the
 * diagnostic label of each tag.
 */
module Tokens {

  /** The token tags, in declaration order. `Invalid` is the default tag of a
      token record; the tokenizer never produces it. */
  datatype TokenKind =
    | Identifier
    | Numeric
    | Operator
    | LayoutKw
    | InKw
    | OutKw
    | UniformKw
    | BufferKw
    | MemoryQualifier
    | OpenParen
    | CloseParen
    | PoundSign
    | EqualSign
    | Comma
    | SemiColon
    | OpenCurly
    | CloseCurly
    | OpenSquare
    | CloseSquare
    | Invalid

  /** One token: its tag, the characters it was made from and the (1-based)
      source line of its first character. */
  datatype Token = Token(kind: TokenKind, lexeme: string, line: nat)

  /** The label a diagnostic uses for a tag. */
  function KindLabel(k: TokenKind): (text: string)
    ensures |text| > 0
    ensures k != Invalid <==> text != "invalid token"
  {
    match k
    case Identifier => "identifier"
    case Numeric => "numeric literal"
    case Operator => "operator"
    case LayoutKw => "layout"
    case InKw => "in"
    case OutKw => "out"
    case UniformKw => "uniform"
    case BufferKw => "buffer"
    case MemoryQualifier => "memory qualifier"
    case OpenParen => "("
    case CloseParen => ")"
    case PoundSign => "#"
    case EqualSign => "="
    case Comma => ","
    case SemiColon => ";"
    case OpenCurly => "{"
    case CloseCurly => "}"
    case OpenSquare => "["
    case CloseSquare => "]"
    case Invalid => "invalid token"
  }

  /** Distinct tags have distinct labels, so a diagnostic names the tag
      unambiguously. */
  lemma KindLabelInjective(a: TokenKind, b: TokenKind)
    ensures KindLabel(a) == KindLabel(b) ==> a == b
  {
  }
}
