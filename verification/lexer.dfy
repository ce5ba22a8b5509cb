/**
 * The tokenizer of shader-parser.cpp (`tokenizeShaderSource`), modelled on a
 * finite character sequence. Character classes follow the C library in the
 * "C" locale; every other character (including non-ASCII ones) is neither a
 * letter, a digit nor white space.
 */
module Lexer {
  import opened Tokens

  predicate IsAlpha(c: char) { 'A' <= c <= 'Z' || 'a' <= c <= 'z' }

  predicate IsDigit(c: char) { '0' <= c <= '9' }

  predicate IsAlnum(c: char) { IsAlpha(c) || IsDigit(c) }

  /** `std::isspace`: blank, tab, newline, vertical tab, form feed, carriage return. */
  predicate IsSpace(c: char) {
    c == ' ' || c == '\t' || c == '\n' || c == '\U{000B}' || c == '\U{000C}' || c == '\r'
  }

  /** Characters that continue a letter-initial word. */
  predicate IsWordChar(c: char) { IsAlnum(c) || c == '_' }

  /** Characters that continue a digit-initial literal. */
  predicate IsNumberChar(c: char) { IsDigit(c) || c == 'x' || c == 'X' || c == 'f' || c == '.' }

  /** The two kinds of multi-character token: a letter-initial word and a
      digit-initial literal. */
  datatype RunKind = WordRun | NumberRun

  predicate Continues(r: RunKind, c: char) {
    match r
    case WordRun => IsWordChar(c)
    case NumberRun => IsNumberChar(c)
  }

  /** The tag of a word: an exact, case-sensitive keyword match, else an identifier. */
  function WordKind(w: string): TokenKind {
    if w == "layout" then LayoutKw
    else if w == "in" then InKw
    else if w == "out" then OutKw
    else if w == "uniform" then UniformKw
    else if w == "buffer" then BufferKw
    else if w == "readonly" || w == "writeonly" then MemoryQualifier
    else Identifier
  }

  /** The tag of a character that is neither a letter, a digit nor white space. */
  function CharKind(c: char): TokenKind {
    match c
    case '(' => OpenParen
    case ')' => CloseParen
    case '#' => PoundSign
    case '=' => EqualSign
    case ',' => Comma
    case ';' => SemiColon
    case '{' => OpenCurly
    case '}' => CloseCurly
    case '[' => OpenSquare
    case ']' => CloseSquare
    case _ => Operator
  }

  /** The run a letter or digit starts. */
  function RunOf(c: char): RunKind
    requires IsAlnum(c)
  {
    if IsAlpha(c) then WordRun else NumberRun
  }

  /** The length of the longest prefix of `s` whose characters all continue a run of kind `r`. */
  function RunLength(s: string, r: RunKind): (n: nat)
    ensures n <= |s|
  {
    if |s| == 0 || !Continues(r, s[0]) then 0 else 1 + RunLength(s[1..], r)
  }

  /** `RunLength` is the length of the longest prefix of continuing characters. */
  lemma {:induction false} RunLengthMaximal(s: string, r: RunKind)
    ensures forall k :: 0 <= k < RunLength(s, r) ==> Continues(r, s[k])
    ensures RunLength(s, r) == |s| || !Continues(r, s[RunLength(s, r)])
    decreases |s|
  {
    if |s| > 0 && Continues(r, s[0]) {
      RunLengthMaximal(s[1..], r);
    }
  }

  /** What every token the tokenizer emits looks like: a maximal word with its
      keyword tag, a digit-initial literal, or one punctuation/operator
      character; never white space and never the `Invalid` tag. */
  predicate WellFormed(t: Token) {
    && |t.lexeme| > 0
    && t.kind != Invalid
    && (IsAlpha(t.lexeme[0]) ==>
          (forall k :: 0 <= k < |t.lexeme| ==> IsWordChar(t.lexeme[k])) && t.kind == WordKind(t.lexeme))
    && (IsDigit(t.lexeme[0]) ==>
          (forall k :: 0 <= k < |t.lexeme| ==> IsNumberChar(t.lexeme[k])) && t.kind == Numeric)
    && (!IsAlnum(t.lexeme[0]) ==>
          |t.lexeme| == 1 && !IsSpace(t.lexeme[0]) && t.kind == CharKind(t.lexeme[0]))
  }

  /** The number of newline characters in `s`. */
  function Newlines(s: string): nat {
    if |s| == 0 then 0 else (if s[0] == '\n' then 1 else 0) + Newlines(s[1..])
  }

  lemma {:induction false} NewlinesSuffix(s: string, n: nat)
    requires n <= |s|
    ensures Newlines(s[n..]) <= Newlines(s)
    decreases n
  {
    if n > 0 {
      NewlinesSuffix(s[1..], n - 1);
      assert s[1..][n - 1..] == s[n..];
    }
  }

  /** Token lines never decrease along the sequence. */
  predicate LinesSorted(toks: seq<Token>) {
    forall i, j :: 0 <= i < j < |toks| ==> toks[i].line <= toks[j].line
  }

  /** Tokenizes `s`, whose first character sits on line `line`. White space
      is skipped one character at a time (the source skips a whole run in an
      inner loop, which is the same thing), counting newlines. */
  function TokenizeFrom(s: string, line: nat): seq<Token>
    decreases |s|
  {
    if |s| == 0 then []
    else if IsAlpha(s[0]) then
      var n := RunLength(s, WordRun);
      [Token(WordKind(s[..n]), s[..n], line)] + TokenizeFrom(s[n..], line)
    else if IsDigit(s[0]) then
      var n := RunLength(s, NumberRun);
      [Token(Numeric, s[..n], line)] + TokenizeFrom(s[n..], line)
    else if IsSpace(s[0]) then
      TokenizeFrom(s[1..], if s[0] == '\n' then line + 1 else line)
    else
      [Token(CharKind(s[0]), [s[0]], line)] + TokenizeFrom(s[1..], line)
  }

  /** `tokenizeShaderSource`: lines are numbered from 1. */
  function Tokenize(s: string): (toks: seq<Token>)
    ensures forall k :: 0 <= k < |toks| ==> WellFormed(toks[k]) && toks[k].kind != Invalid
    ensures forall k :: 0 <= k < |toks| ==> 1 <= toks[k].line <= 1 + Newlines(s)
    ensures LinesSorted(toks)
  {
    TokensWellFormed(s, 1);
    TokenLines(s, 1);
    TokenizeFrom(s, 1)
  }

  /** Every emitted token is well formed. */
  lemma {:induction false} TokensWellFormed(s: string, line: nat)
    ensures forall k :: 0 <= k < |TokenizeFrom(s, line)| ==> WellFormed(TokenizeFrom(s, line)[k])
    decreases |s|
  {
    if |s| == 0 {
    } else if IsAlnum(s[0]) {
      var n := RunLength(s, RunOf(s[0]));
      RunLengthMaximal(s, RunOf(s[0]));
      TokensWellFormed(s[n..], line);
    } else if IsSpace(s[0]) {
      TokensWellFormed(s[1..], if s[0] == '\n' then line + 1 else line);
    } else {
      TokensWellFormed(s[1..], line);
    }
  }

  /** Token lines lie between the starting line and the last line of `s`,
      in non-decreasing order. */
  lemma {:induction false} TokenLines(s: string, line: nat)
    ensures var toks := TokenizeFrom(s, line);
            && (forall k :: 0 <= k < |toks| ==> line <= toks[k].line <= line + Newlines(s))
            && LinesSorted(toks)
    decreases |s|
  {
    if |s| == 0 {
    } else if IsAlnum(s[0]) {
      var n := RunLength(s, RunOf(s[0]));
      TokenLines(s[n..], line);
      NewlinesSuffix(s, n);
    } else if IsSpace(s[0]) {
      TokenLines(s[1..], if s[0] == '\n' then line + 1 else line);
    } else {
      TokenLines(s[1..], line);
    }
  }
}
