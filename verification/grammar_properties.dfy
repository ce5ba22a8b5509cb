/**
 * Round trips between the declarations of `Grammar` and the parser: every
 * stage reads back exactly what the spelling of a valid declaration says,
 * and whole programs parse to the records they denote, in order. Also the
 * malformed spellings the parser rejects.
 */
module GrammarProperties {
  import opened Tokens
  import opened Lexer
  import opened LayoutModel
  import opened Numbers
  import opened Parser
  import opened Grammar

  /** `toks` holds `r` starting at index `p`. */
  predicate At(toks: seq<Token>, p: nat, r: seq<Token>) {
    p + |r| <= |toks| && toks[p..p + |r|] == r
  }

  /** Every token of `r` is in place. */
  lemma AtAll(toks: seq<Token>, p: nat, r: seq<Token>)
    requires At(toks, p, r)
    ensures p + |r| <= |toks|
    ensures forall k :: 0 <= k < |r| ==> toks[p + k] == r[k]
  {
    forall k | 0 <= k < |r| ensures toks[p + k] == r[k] {
      assert toks[p..p + |r|][k] == r[k];
    }
  }

  /** Tokens in place make `At` hold. */
  lemma AtFromAll(toks: seq<Token>, p: nat, r: seq<Token>)
    requires p + |r| <= |toks|
    requires forall k :: 0 <= k < |r| ==> toks[p + k] == r[k]
    ensures At(toks, p, r)
  {
    assert toks[p..p + |r|] == r;
  }

  lemma AtSplit(toks: seq<Token>, p: nat, a: seq<Token>, b: seq<Token>)
    requires At(toks, p, a + b)
    ensures At(toks, p, a) && At(toks, p + |a|, b)
  {
    var w := toks[p..p + |a| + |b|];
    assert toks[p..p + |a|] == w[..|a|];
    assert toks[p + |a|..p + |a| + |b|] == w[|a|..];
  }

  /** Where each item of a joined spelling starts, from `p`, and where the
      last one ends. */
  function Offsets<D>(spell: D -> seq<Token>, p: nat, ds: seq<D>): (r: seq<nat>)
    ensures |r| == |ds| + 1 && r[0] == p && r[|ds|] == p + |Join(spell, ds)|
    decreases |ds|
  {
    if |ds| == 0 then [p] else [p] + Offsets(spell, p + |spell(ds[0])|, ds[1..])
  }

  /** Item `k` of a joined spelling lies at its offset, and the next one
      starts where it ends. */
  lemma {:induction false} JoinAt<D>(toks: seq<Token>, p: nat, spell: D -> seq<Token>, ds: seq<D>, k: nat)
    requires At(toks, p, Join(spell, ds)) && k < |ds|
    ensures At(toks, Offsets(spell, p, ds)[k], spell(ds[k]))
    ensures Offsets(spell, p, ds)[k + 1] == Offsets(spell, p, ds)[k] + |spell(ds[k])|
    decreases k
  {
    var n := |spell(ds[0])|;
    var o := Offsets(spell, p + n, ds[1..]);
    assert Offsets(spell, p, ds)[1] == o[0];
    AtSplit(toks, p, spell(ds[0]), Join(spell, ds[1..]));
    if k > 0 {
      JoinAt(toks, p + n, spell, ds[1..], k - 1);
      assert Offsets(spell, p, ds)[k] == o[k - 1];
      assert Offsets(spell, p, ds)[k + 1] == o[k];
      assert ds[1..][k - 1] == ds[k];
    }
  }

  // ---------------------------------------------------------------------
  // Options
  // ---------------------------------------------------------------------

  /** The key of one option, and what `OptionValue` reads after it. */
  lemma OptionRead(toks: seq<Token>, p: nat, o: OptionDecl, last: bool)
    requires ValidOption(o) && At(toks, p, OptionTokens(o, last))
    ensures Expect(toks, p, Identifier) && toks[p].lexeme == o.key
    ensures OptionValue(toks, p + 1) == Ok((OptionValueOf(o), last), p + |OptionTokens(o, last)|)
  {
    var r := OptionTokens(o, last);
    AtAll(toks, p, r);
    assert toks[p] == r[0];
    if o.Assign? {
      assert toks[p + 1] == r[1] && toks[p + 2] == r[2] && toks[p + 3] == r[3];
      StoiDecimalText(o.value);
    } else {
      assert toks[p + 1] == r[1];
    }
  }

  /** One entry that does not close the list hands over to the next. */
  lemma OptionsStep(toks: seq<Token>, p: nat, o: OptionDecl, m: map<string, int32>)
    requires ValidOption(o) && At(toks, p, OptionTokens(o, false))
    ensures Options(toks, p, m)
         == Options(toks, p + |OptionTokens(o, false)|, m[o.key := OptionValueOf(o)])
  {
    OptionRead(toks, p, o, false);
  }

  /** A list of two or more options: its first entry, then the rest. */
  lemma OptionsParts(toks: seq<Token>, p: nat, opts: seq<OptionDecl>)
    requires |opts| > 1 && forall k :: 0 <= k < |opts| ==> ValidOption(opts[k])
    requires At(toks, p, OptionListTokens(opts))
    ensures ValidOption(opts[0]) && forall k :: 0 <= k < |opts[1..]| ==> ValidOption(opts[1..][k])
    ensures At(toks, p, OptionTokens(opts[0], false))
    ensures At(toks, p + |OptionTokens(opts[0], false)|, OptionListTokens(opts[1..]))
    ensures |OptionListTokens(opts)| == |OptionTokens(opts[0], false)| + |OptionListTokens(opts[1..])|
  {
    var first := OptionTokens(opts[0], false);
    var tail := OptionListTokens(opts[1..]);
    assert OptionListTokens(opts) == first + tail;
    AtSplit(toks, p, first, tail);
  }

  /** A list of one option is its closing entry. */
  lemma OptionsLast(toks: seq<Token>, p: nat, opts: seq<OptionDecl>, m: map<string, int32>)
    requires |opts| == 1 && ValidOption(opts[0])
    requires At(toks, p, OptionListTokens(opts))
    ensures Options(toks, p, m) == Ok(OptionMap(m, opts), p + |OptionListTokens(opts)|)
  {
    OptionRead(toks, p, opts[0], true);
    assert opts[1..] == [];
  }

  /** The first entry, then the rest, make the whole list. */
  lemma OptionsCons(toks: seq<Token>, p: nat, opts: seq<OptionDecl>, m: map<string, int32>, q: nat, e: nat)
    requires |opts| > 1 && forall k :: 0 <= k < |opts| ==> ValidOption(opts[k])
    requires Options(toks, p, m) == Options(toks, q, m[opts[0].key := OptionValueOf(opts[0])])
    requires Options(toks, q, m[opts[0].key := OptionValueOf(opts[0])])
          == Ok(OptionMap(m[opts[0].key := OptionValueOf(opts[0])], opts[1..]), e)
    ensures Options(toks, p, m) == Ok(OptionMap(m, opts), e)
  {
  }

  /** A valid option list reads back as its map, applied left to right. */
  lemma {:induction false} OptionsRead(toks: seq<Token>, p: nat, opts: seq<OptionDecl>, m: map<string, int32>)
    requires |opts| > 0 && forall k :: 0 <= k < |opts| ==> ValidOption(opts[k])
    requires At(toks, p, OptionListTokens(opts))
    ensures Options(toks, p, m) == Ok(OptionMap(m, opts), p + |OptionListTokens(opts)|)
    decreases |opts|
  {
    if |opts| == 1 {
      OptionsLast(toks, p, opts, m);
    } else {
      var q := p + |OptionTokens(opts[0], false)|;
      var m' := m[opts[0].key := OptionValueOf(opts[0])];
      OptionsParts(toks, p, opts);
      OptionsStep(toks, p, opts[0], m);
      OptionsRead(toks, q, opts[1..], m');
      OptionsCons(toks, p, opts, m, q, q + |OptionListTokens(opts[1..])|);
    }
  }

  /** An option list in which every entry is followed by `,`, closed by a
      `)` where the parser wants another key. */
  function TrailingCommaTokens(opts: seq<OptionDecl>): seq<Token> {
    if |opts| == 0 then [Tok(CloseParen, ")")]
    else OptionTokens(opts[0], false) + TrailingCommaTokens(opts[1..])
  }

  /** A trailing comma is rejected: after `,` the parser wants another key
      and finds `)`, the last token of the spelling. */
  lemma {:induction false} TrailingCommaRejected(toks: seq<Token>, p: nat, opts: seq<OptionDecl>, m: map<string, int32>)
    requires forall k :: 0 <= k < |opts| ==> ValidOption(opts[k])
    requires At(toks, p, TrailingCommaTokens(opts))
    ensures Options(toks, p, m) == Fail(Unexpected(p + |TrailingCommaTokens(opts)| - 1))
    decreases |opts|
  {
    if |opts| == 0 {
      ClosingParenRejected(toks, p, m);
    } else {
      var q := p + |OptionTokens(opts[0], false)|;
      var m' := m[opts[0].key := OptionValueOf(opts[0])];
      TrailingCommaParts(toks, p, opts);
      OptionsStep(toks, p, opts[0], m);
      TrailingCommaRejected(toks, q, opts[1..], m');
    }
  }

  /** A `)` where a key is due fails at once. */
  lemma ClosingParenRejected(toks: seq<Token>, p: nat, m: map<string, int32>)
    requires At(toks, p, [Tok(CloseParen, ")")])
    ensures Options(toks, p, m) == Fail(Unexpected(p))
  {
    AtAll(toks, p, [Tok(CloseParen, ")")]);
    assert toks[p + 0] == Tok(CloseParen, ")");
  }

  /** After a key, anything but `=`, `,` or `)`, or the end of the input,
      fails at that token. */
  lemma OptionSeparatorRejected(toks: seq<Token>, p: nat, m: map<string, int32>)
    requires Expect(toks, p, Identifier)
    requires !Accepts(toks, p + 1, [EqualSign, Comma, CloseParen])
    ensures Options(toks, p, m) == Fail(Unexpected(p + 1))
  {
  }

  /** After `key =`, anything but a numeric token, or the end of the input,
      fails at that token. */
  lemma OptionValueRejected(toks: seq<Token>, p: nat, m: map<string, int32>)
    requires Expect(toks, p, Identifier) && Expect(toks, p + 1, EqualSign)
    requires !Expect(toks, p + 2, Numeric)
    ensures Options(toks, p, m) == Fail(Unexpected(p + 2))
  {
  }

  /** A numeric value that `std::stoi` rejects throws out of the option
      list, at the value's token. */
  lemma OptionValueThrows(toks: seq<Token>, p: nat, m: map<string, int32>)
    requires Expect(toks, p, Identifier) && Expect(toks, p + 1, EqualSign) && Expect(toks, p + 2, Numeric)
    requires !Stoi(toks[p + 2].lexeme).Converted?
    ensures Options(toks, p, m).Fail? && Options(toks, p, m).error.Throws()
    ensures Options(toks, p, m).error.at == p + 2
  {
  }

  /** After `key = N`, anything but `,` or `)`, or the end of the input,
      fails at that token. */
  lemma OptionEndRejected(toks: seq<Token>, p: nat, m: map<string, int32>)
    requires Expect(toks, p, Identifier) && Expect(toks, p + 1, EqualSign) && Expect(toks, p + 2, Numeric)
    requires Stoi(toks[p + 2].lexeme).Converted?
    requires !Accepts(toks, p + 3, [Comma, CloseParen])
    ensures Options(toks, p, m) == Fail(Unexpected(p + 3))
  {
  }

  /** A trailing-comma list of one or more options: its first entry, then
      the rest. */
  lemma TrailingCommaParts(toks: seq<Token>, p: nat, opts: seq<OptionDecl>)
    requires |opts| > 0 && forall k :: 0 <= k < |opts| ==> ValidOption(opts[k])
    requires At(toks, p, TrailingCommaTokens(opts))
    ensures ValidOption(opts[0]) && forall k :: 0 <= k < |opts[1..]| ==> ValidOption(opts[1..][k])
    ensures At(toks, p, OptionTokens(opts[0], false))
    ensures At(toks, p + |OptionTokens(opts[0], false)|, TrailingCommaTokens(opts[1..]))
    ensures |TrailingCommaTokens(opts)| == |OptionTokens(opts[0], false)| + |TrailingCommaTokens(opts[1..])|
  {
    var first := OptionTokens(opts[0], false);
    var tail := TrailingCommaTokens(opts[1..]);
    assert TrailingCommaTokens(opts) == first + tail;
    AtSplit(toks, p, first, tail);
  }

  /** `std140` is a key of the map exactly when the list names it. */
  lemma {:induction false} OptionMapStd140(m: map<string, int32>, opts: seq<OptionDecl>)
    requires forall k :: 0 <= k < |opts| ==> ValidOption(opts[k])
    ensures "std140" in OptionMap(m, opts) <==> "std140" in m || HasStd140(opts)
    decreases |opts|
  {
    if |opts| > 0 {
      OptionMapStd140(m[opts[0].key := OptionValueOf(opts[0])], opts[1..]);
      if HasStd140(opts[1..]) {
        var k :| 0 <= k < |opts[1..]| && opts[1..][k].key == "std140";
        assert opts[k + 1].key == "std140";
      }
      if HasStd140(opts) && opts[0].key != "std140" {
        var k :| 0 <= k < |opts| && opts[k].key == "std140";
        assert opts[1..][k - 1].key == "std140";
      }
    }
  }

  /** Keys of the map are exactly the keys of the list and of `m`. */
  lemma {:induction false} OptionMapKeys(m: map<string, int32>, opts: seq<OptionDecl>, key: string)
    requires forall k :: 0 <= k < |opts| ==> ValidOption(opts[k])
    ensures key in OptionMap(m, opts) <==> key in m || exists k :: 0 <= k < |opts| && opts[k].key == key
    decreases |opts|
  {
    if |opts| > 0 {
      OptionMapKeys(m[opts[0].key := OptionValueOf(opts[0])], opts[1..], key);
      if exists k :: 0 <= k < |opts| && opts[k].key == key {
        var k :| 0 <= k < |opts| && opts[k].key == key;
        if k > 0 {
          assert opts[1..][k - 1].key == key;
        }
      }
      if exists k :: 0 <= k < |opts[1..]| && opts[1..][k].key == key {
        var k :| 0 <= k < |opts[1..]| && opts[1..][k].key == key;
        assert opts[k + 1].key == key;
      }
    }
  }

  /** A key holds the value of its last entry: the last write wins. */
  lemma {:induction false} OptionMapLastWins(m: map<string, int32>, opts: seq<OptionDecl>, j: nat)
    requires forall k :: 0 <= k < |opts| ==> ValidOption(opts[k])
    requires j < |opts| && forall k :: j < k < |opts| ==> opts[k].key != opts[j].key
    ensures opts[j].key in OptionMap(m, opts)
    ensures OptionMap(m, opts)[opts[j].key] == OptionValueOf(opts[j])
    decreases |opts|
  {
    var m' := m[opts[0].key := OptionValueOf(opts[0])];
    if j > 0 {
      assert opts[1..][j - 1] == opts[j];
      forall k | j - 1 < k < |opts[1..]| ensures opts[1..][k].key != opts[j].key {
        assert opts[1..][k] == opts[k + 1];
      }
      OptionMapLastWins(m', opts[1..], j - 1);
    } else {
      forall k | 0 <= k < |opts[1..]| ensures opts[1..][k].key != opts[0].key {
        assert opts[1..][k] == opts[k + 1];
      }
      OptionMapUntouched(m', opts[1..], opts[0].key);
    }
  }

  /** A key no entry names keeps its value in `m`. */
  lemma {:induction false} OptionMapUntouched(m: map<string, int32>, opts: seq<OptionDecl>, key: string)
    requires forall k :: 0 <= k < |opts| ==> ValidOption(opts[k])
    requires (forall k :: 0 <= k < |opts| ==> opts[k].key != key) && key in m
    ensures key in OptionMap(m, opts) && OptionMap(m, opts)[key] == m[key]
    decreases |opts|
  {
    if |opts| > 0 {
      forall k | 0 <= k < |opts[1..]| ensures opts[1..][k].key != key {
        assert opts[1..][k] == opts[k + 1];
      }
      OptionMapUntouched(m[opts[0].key := OptionValueOf(opts[0])], opts[1..], key);
    }
  }
}
