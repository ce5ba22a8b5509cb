/**
 * Properties of the tokenizer: every non-blank character lands in exactly one
 * token in input order, words and literals are munched maximally, and white
 * space only separates.
 */
module LexerProperties {
  import opened Tokens
  import opened Lexer

  /** The lexemes of `toks`, concatenated in order. */
  function Lexemes(toks: seq<Token>): string {
    if |toks| == 0 then [] else toks[0].lexeme + Lexemes(toks[1..])
  }

  /** `s` with every white-space character removed. */
  function StripSpace(s: string): string {
    if |s| == 0 then [] else (if IsSpace(s[0]) then [] else [s[0]]) + StripSpace(s[1..])
  }

  lemma {:induction false} StripSpaceAppend(a: string, b: string)
    ensures StripSpace(a + b) == StripSpace(a) + StripSpace(b)
    decreases |a|
  {
    if |a| > 0 {
      StripSpaceAppend(a[1..], b);
      assert (a + b)[1..] == a[1..] + b;
    } else {
      assert a + b == b;
    }
  }

  lemma {:induction false} StripSpaceNoBlank(a: string)
    requires forall k :: 0 <= k < |a| ==> !IsSpace(a[k])
    ensures StripSpace(a) == a
    decreases |a|
  {
    if |a| > 0 {
      StripSpaceNoBlank(a[1..]);
      assert a == [a[0]] + a[1..];
    }
  }

  lemma {:induction false} NewlinesAppend(a: string, b: string)
    ensures Newlines(a + b) == Newlines(a) + Newlines(b)
    decreases |a|
  {
    if |a| > 0 {
      NewlinesAppend(a[1..], b);
      assert (a + b)[1..] == a[1..] + b;
    } else {
      assert a + b == b;
    }
  }

  lemma {:induction false} NewlinesNone(a: string)
    requires forall k :: 0 <= k < |a| ==> a[k] != '\n'
    ensures Newlines(a) == 0
    decreases |a|
  {
    if |a| > 0 {
      NewlinesNone(a[1..]);
    }
  }

  /** A run length is determined by its two defining facts. */
  lemma {:induction false} RunLengthIs(s: string, r: RunKind, m: nat)
    requires m <= |s|
    requires forall k :: 0 <= k < m ==> Continues(r, s[k])
    requires m == |s| || !Continues(r, s[m])
    ensures RunLength(s, r) == m
    decreases m
  {
    if m > 0 {
      RunLengthIs(s[1..], r, m - 1);
    }
  }

  /** Coverage: concatenating the lexemes gives back the input with its white
      space removed, so every other character is in exactly one token, in
      input order. */
  lemma {:induction false} Coverage(s: string, line: nat)
    ensures Lexemes(TokenizeFrom(s, line)) == StripSpace(s)
    decreases |s|
  {
    if |s| == 0 {
      return;
    }
    var toks := TokenizeFrom(s, line);
    if IsAlnum(s[0]) {
      var n := RunLength(s, RunOf(s[0]));
      RunLengthMaximal(s, RunOf(s[0]));
      Coverage(s[n..], line);
      assert toks[0].lexeme == s[..n];
      assert toks[1..] == TokenizeFrom(s[n..], line);
      assert s == s[..n] + s[n..];
      StripSpaceAppend(s[..n], s[n..]);
      StripSpaceNoBlank(s[..n]);
    } else if IsSpace(s[0]) {
      Coverage(s[1..], if s[0] == '\n' then line + 1 else line);
    } else {
      Coverage(s[1..], line);
      assert toks[1..] == TokenizeFrom(s[1..], line);
    }
  }

  /** The whole input, without white space, is the concatenation of the
      lexemes of `Tokenize`. */
  lemma TokenizeCoverage(s: string)
    ensures Lexemes(Tokenize(s)) == StripSpace(s)
  {
    Coverage(s, 1);
  }

  /** Maximal munch for words: a letter-initial run of word characters not
      followed by another word character becomes exactly one token, tagged by
      its keyword match. */
  lemma WordIsOneToken(w: string, rest: string, line: nat)
    requires |w| > 0 && IsAlpha(w[0])
    requires forall k :: 0 <= k < |w| ==> IsWordChar(w[k])
    requires rest == [] || !IsWordChar(rest[0])
    ensures TokenizeFrom(w + rest, line) == [Token(WordKind(w), w, line)] + TokenizeFrom(rest, line)
  {
    var s := w + rest;
    RunLengthIs(s, WordRun, |w|);
    assert s[..|w|] == w;
    assert s[|w|..] == rest;
  }

  /** Maximal munch for literals: a digit-initial run over digits, `x`, `X`,
      `f` and `.` not followed by such a character is one `Numeric` token,
      kept verbatim. */
  lemma NumberIsOneToken(d: string, rest: string, line: nat)
    requires |d| > 0 && IsDigit(d[0])
    requires forall k :: 0 <= k < |d| ==> IsNumberChar(d[k])
    requires rest == [] || !IsNumberChar(rest[0])
    ensures TokenizeFrom(d + rest, line) == [Token(Numeric, d, line)] + TokenizeFrom(rest, line)
  {
    var s := d + rest;
    RunLengthIs(s, NumberRun, |d|);
    assert s[..|d|] == d;
    assert s[|d|..] == rest;
  }

  /** A run stops no later than a character outside its class. */
  lemma RunStopsAtSeparator(a: string, c: char, b: string, r: RunKind)
    requires !Continues(r, c)
    ensures RunLength(a + [c] + b, r) == RunLength(a, r)
  {
    var s := a + [c] + b;
    var m := RunLength(a, r);
    RunLengthMaximal(a, r);
    assert forall k :: 0 <= k < m ==> s[k] == a[k];
    assert m < |a| ==> s[m] == a[m];
    assert m == |a| ==> s[m] == c;
    RunLengthIs(s, r, m);
  }

  /** White space only separates: tokenizing `a`, a blank character and `b`
      gives the tokens of `a` followed by those of `b`, whose lines are offset
      by the newlines before them. */
  lemma {:induction false} BlankSeparates(a: string, c: char, b: string, line: nat)
    requires IsSpace(c)
    ensures TokenizeFrom(a + [c] + b, line)
         == TokenizeFrom(a, line) + TokenizeFrom(b, line + Newlines(a + [c]))
    decreases |a|, 1
  {
    var s := a + [c] + b;
    if |a| == 0 {
      assert s[0] == c && s[1..] == b;
      assert Newlines(a + [c]) == (if c == '\n' then 1 else 0) + Newlines([]);
      assert TokenizeFrom(s, line) == TokenizeFrom(b, if c == '\n' then line + 1 else line);
    } else if IsAlnum(a[0]) {
      BlankSeparatesRun(a, c, b, line);
    } else if IsSpace(a[0]) {
      BlankSeparatesSpace(a, c, b, line);
    } else {
      BlankSeparatesPunct(a, c, b, line);
    }
  }

  /** The case of `BlankSeparates` where `a` starts with a blank. */
  lemma {:induction false} BlankSeparatesSpace(a: string, c: char, b: string, line: nat)
    requires IsSpace(c) && |a| > 0 && IsSpace(a[0])
    ensures TokenizeFrom(a + [c] + b, line)
         == TokenizeFrom(a, line) + TokenizeFrom(b, line + Newlines(a + [c]))
    decreases |a|, 0
  {
    var s := a + [c] + b;
    var next := if a[0] == '\n' then line + 1 else line;
    assert s[0] == a[0];
    assert s[1..] == a[1..] + [c] + b;
    BlankSeparates(a[1..], c, b, next);
    assert (a + [c])[1..] == a[1..] + [c];
  }

  /** The case of `BlankSeparates` where `a` starts with a single-character token. */
  lemma {:induction false} BlankSeparatesPunct(a: string, c: char, b: string, line: nat)
    requires IsSpace(c) && |a| > 0 && !IsAlnum(a[0]) && !IsSpace(a[0])
    ensures TokenizeFrom(a + [c] + b, line)
         == TokenizeFrom(a, line) + TokenizeFrom(b, line + Newlines(a + [c]))
    decreases |a|, 0
  {
    var t := Token(CharKind(a[0]), [a[0]], line);
    var rest := TokenizeFrom(b, line + Newlines(a[1..] + [c]));
    assert TokenizeFrom(a + [c] + b, line) == [t] + TokenizeFrom(a[1..] + [c] + b, line) by {
      var s := a + [c] + b;
      assert s[0] == a[0];
      assert s[1..] == a[1..] + [c] + b;
    }
    assert TokenizeFrom(a[1..] + [c] + b, line) == TokenizeFrom(a[1..], line) + rest by {
      BlankSeparates(a[1..], c, b, line);
    }
    assert Newlines(a + [c]) == Newlines(a[1..] + [c]) by {
      assert (a + [c])[1..] == a[1..] + [c];
    }
  }

  /** The case of `BlankSeparates` where `a` starts with a word or a literal. */
  lemma {:induction false} BlankSeparatesRun(a: string, c: char, b: string, line: nat)
    requires IsSpace(c) && |a| > 0 && IsAlnum(a[0])
    ensures TokenizeFrom(a + [c] + b, line)
         == TokenizeFrom(a, line) + TokenizeFrom(b, line + Newlines(a + [c]))
    decreases |a|, 0
  {
    var rest, t := FirstRunToken(a, c, b, line);
    BlankSeparates(rest, c, b, line);
    Glue(t, TokenizeFrom(a + [c] + b, line), TokenizeFrom(a, line),
         TokenizeFrom(rest + [c] + b, line), TokenizeFrom(rest, line),
         TokenizeFrom(b, line + Newlines(rest + [c])));
  }

  /** Sequence algebra behind the run case of `BlankSeparates`. */
  lemma Glue(t: Token, whole: seq<Token>, head: seq<Token>, tail: seq<Token>, tailHead: seq<Token>, rest: seq<Token>)
    requires whole == [t] + tail && head == [t] + tailHead && tail == tailHead + rest
    ensures whole == head + rest
  {
  }

  /** `a` and `a + [c] + b` start with the same word or literal token `t`
      when `c` is blank; `rest` is what follows that token in `a`. */
  lemma FirstRunToken(a: string, c: char, b: string, line: nat) returns (rest: string, t: Token)
    requires IsSpace(c) && |a| > 0 && IsAlnum(a[0])
    ensures |rest| < |a|
    ensures TokenizeFrom(a + [c] + b, line) == [t] + TokenizeFrom(rest + [c] + b, line)
    ensures TokenizeFrom(a, line) == [t] + TokenizeFrom(rest, line)
    ensures Newlines(a + [c]) == Newlines(rest + [c])
  {
    var s := a + [c] + b;
    RunStopsAtSeparator(a, c, b, RunOf(a[0]));
    var m := RunLength(a, RunOf(a[0]));
    rest := a[m..];
    t := Token(if IsAlpha(a[0]) then WordKind(a[..m]) else Numeric, a[..m], line);
    assert s[..m] == a[..m];
    assert s[m..] == rest + [c] + b;
    NewlinesAfterRun(a, c);
  }

  /** A word or literal holds no newline. */
  lemma NewlinesAfterRun(a: string, c: char)
    requires |a| > 0 && IsAlnum(a[0])
    ensures Newlines(a + [c]) == Newlines(a[RunLength(a, RunOf(a[0]))..] + [c])
  {
    var m := RunLength(a, RunOf(a[0]));
    RunLengthMaximal(a, RunOf(a[0]));
    assert a + [c] == a[..m] + (a[m..] + [c]);
    NewlinesAppend(a[..m], a[m..] + [c]);
    NewlinesNone(a[..m]);
  }
}
