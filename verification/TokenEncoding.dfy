/** The text forms a token list takes in a store: the stored lexeme text and the two search expressions. */
module TokenEncoding {
  import opened Wrappers
  import opened Runes
  import opened Tokenizers

  datatype TokenError = TokenHasWhitespace(index: nat) | TokenHasMetaCharacter(index: nat)

  predicate HasSpace(t: Text) {
    exists r | r in t :: r.Space?
  }

  predicate HasMeta(t: Text) {
    exists r | r in t :: r.Meta?
  }

  predicate TokensAccepted(tokens: seq<Text>) {
    forall t | t in tokens :: !HasSpace(t) && !HasMeta(t)
  }

  /** The first token that breaks the contract decides the error; white space is reported before a meta character. */
  ghost predicate IsFirstFault(tokens: seq<Text>, e: TokenError) {
    && e.index < |tokens|
    && (forall j, r | 0 <= j < e.index && r in tokens[j] :: !r.Space? && !r.Meta?)
    && (e.TokenHasWhitespace? <==> exists r :: r in tokens[e.index] && r.Space?)
    && (e.TokenHasMetaCharacter? ==> exists r :: r in tokens[e.index] && r.Meta?)
  }

  method ValidateTokens(tokens: seq<Text>) returns (r: Result<(), TokenError>)
    ensures r.Success? <==> TokensAccepted(tokens)
    ensures r.Failure? ==> IsFirstFault(tokens, r.error)
  {
    for i := 0 to |tokens|
      invariant forall j | 0 <= j < i :: !HasSpace(tokens[j]) && !HasMeta(tokens[j])
    {
      if HasSpace(tokens[i]) {
        return Failure(TokenHasWhitespace(i));
      }
      if HasMeta(tokens[i]) {
        return Failure(TokenHasMetaCharacter(i));
      }
    }
    return Success(());
  }

  function Join(tokens: seq<Text>, separator: Text): Text {
    if tokens == [] then []
    else if |tokens| == 1 then tokens[0]
    else tokens[0] + separator + Join(tokens[1..], separator)
  }

  function LexemeText(tokens: seq<Text>): Text {
    Join(tokens, [BLANK])
  }

  method EncodeLexemeText(tokens: seq<Text>) returns (r: Result<Text, TokenError>)
    ensures r.Success? <==> TokensAccepted(tokens)
    ensures r.Success? ==> r.value == LexemeText(tokens)
  {
    var v := ValidateTokens(tokens);
    return if v.Failure? then Failure(v.error) else Success(LexemeText(tokens));
  }

  const PIPE: Rune := Meta(124)
  const QUOTE: Rune := Meta(34)

  function TsQuery(tokens: seq<Text>): Text {
    Join(tokens, [BLANK, PIPE, BLANK])
  }

  /** The OR of the match expression is two word runes between blanks. */
  const OR: Text := [BLANK, Word(79), Word(82), BLANK]

  function Quoted(t: Text): Text {
    [QUOTE] + t + [QUOTE]
  }

  function QuotedAll(tokens: seq<Text>): (q: seq<Text>)
    ensures |q| == |tokens| && forall i | 0 <= i < |tokens| :: q[i] == Quoted(tokens[i])
  {
    seq(|tokens|, i requires 0 <= i < |tokens| => Quoted(tokens[i]))
  }

  function MatchExpression(tokens: seq<Text>): Text {
    Join(QuotedAll(tokens), OR)
  }

  // ----- Reading the text back -----

  /** The length of the first stretch without white space. */
  function FieldLength(t: Text): (n: nat)
    ensures n <= |t|
    ensures forall i | 0 <= i < n :: !t[i].Space?
    ensures n < |t| ==> t[n].Space?
  {
    if t == [] || t[0].Space? then 0 else 1 + FieldLength(t[1..])
  }

  /** A database splits text on white space. */
  function Fields(t: Text): seq<Text>
    decreases |t|
  {
    if t == [] then []
    else if t[0].Space? then Fields(t[1..])
    else [t[..FieldLength(t)]] + Fields(t[FieldLength(t)..])
  }

  lemma {:induction false} FieldLengthIs(t: Text, rest: Text)
    requires forall r | r in t :: !r.Space?
    requires rest == [] || rest[0].Space?
    ensures FieldLength(t + rest) == |t|
  {
    if t == [] {
      assert t + rest == rest;
    } else {
      assert t[0] in t && (t + rest)[0] == t[0];
      assert (t + rest)[1..] == t[1..] + rest;
      FieldLengthIs(t[1..], rest);
    }
  }

  lemma {:induction false} FirstField(t: Text, rest: Text)
    requires t != [] && (forall r | r in t :: !r.Space?) && (rest == [] || rest[0].Space?)
    ensures Fields(t + rest) == [t] + Fields(rest)
  {
    FieldLengthIs(t, rest);
    assert t[0] in t && (t + rest)[0] == t[0];
    assert (t + rest)[..|t|] == t && (t + rest)[|t|..] == rest;
  }

  /** Splitting the stored text on white space gives the token list back. */
  lemma {:induction false} LexemeTextSplitsBack(tokens: seq<Text>)
    requires AllTokens(tokens)
    ensures Fields(LexemeText(tokens)) == tokens
  {
    if tokens != [] {
      var t, rest := tokens[0], tokens[1..];
      assert t in tokens;
      LexemeTextSplitsBack(rest);
      if |tokens| == 1 {
        FirstField(t, []);
        assert t + [] == t;
      } else {
        var tail := [BLANK] + LexemeText(rest);
        FirstField(t, tail);
        assert t + [BLANK] + LexemeText(rest) == t + tail;
        assert tail[1..] == LexemeText(rest);
      }
    }
  }

  /** The operands of a tsquery: every field that is not the OR sign. */
  function Operands(fields: seq<Text>): seq<Text> {
    if fields == [] then []
    else (if fields[0] == [PIPE] then [] else [fields[0]]) + Operands(fields[1..])
  }

  lemma {:induction false} SkipBlank(rest: Text)
    ensures Fields([BLANK] + rest) == Fields(rest)
  {
    assert ([BLANK] + rest)[1..] == rest;
  }

  lemma {:induction false} OperandThenPipe(t: Text, rest: Text)
    requires IsToken(t)
    ensures Fields(t + [BLANK, PIPE, BLANK] + rest) == [t, [PIPE]] + Fields(rest)
  {
    var after := [PIPE] + ([BLANK] + rest);
    assert t + [BLANK, PIPE, BLANK] + rest == t + ([BLANK] + after);
    FirstField(t, [BLANK] + after);
    SkipBlank(after);
    FirstField([PIPE], [BLANK] + rest);
    SkipBlank(rest);
  }

  lemma {:induction false} OperandsStep(t: Text, fields: seq<Text>)
    requires IsToken(t)
    ensures Operands([t, [PIPE]] + fields) == [t] + Operands(fields)
    ensures Operands([t]) == [t]
  {
    assert t != [PIPE] by {
      assert PIPE in [PIPE];
    }
    var l := [t, [PIPE]] + fields;
    assert l[1..][1..] == fields;
    assert l[1..][0] == [PIPE];
    assert [t][1..] == [];
  }

  /** The search expression of Postgres has exactly the tokens as operands. */
  lemma {:induction false} TsQueryOperands(tokens: seq<Text>)
    requires AllTokens(tokens)
    ensures Operands(Fields(TsQuery(tokens))) == tokens
  {
    if tokens != [] {
      var t, rest := tokens[0], tokens[1..];
      assert t in tokens;
      TsQueryOperands(rest);
      OperandsStep(t, Fields(TsQuery(rest)));
      if |tokens| == 1 {
        FirstField(t, []);
        assert t + [] == t;
      } else {
        OperandThenPipe(t, TsQuery(rest));
      }
    }
  }

  function QuoteLength(t: Text): (n: nat)
    ensures n <= |t|
    ensures forall i | 0 <= i < n :: t[i] != QUOTE
    ensures n < |t| ==> t[n] == QUOTE
  {
    if t == [] || t[0] == QUOTE then 0 else 1 + QuoteLength(t[1..])
  }

  /** The phrases between quotes; what stands outside quotes is skipped. */
  function Phrases(t: Text): seq<Text>
    decreases |t|
  {
    if t == [] then []
    else if t[0] != QUOTE then Phrases(t[1..])
    else
      var n := QuoteLength(t[1..]);
      if 1 + n == |t| then [] else [t[1..1 + n]] + Phrases(t[n + 2..])
  }

  lemma {:induction false} FirstPhrase(t: Text, rest: Text)
    requires forall r | r in t :: !r.Meta?
    ensures Phrases(Quoted(t) + rest) == [t] + Phrases(rest)
  {
    var s := Quoted(t) + rest;
    QuoteLengthIs(t, rest);
    assert s[1..] == t + ([QUOTE] + rest);
    assert s[1..1 + |t|] == t && s[|t| + 2..] == rest;
  }

  lemma {:induction false} QuoteLengthIs(t: Text, rest: Text)
    requires forall r | r in t :: !r.Meta?
    ensures QuoteLength(t + ([QUOTE] + rest)) == |t|
  {
    if t == [] {
      assert t + ([QUOTE] + rest) == [QUOTE] + rest;
    } else {
      assert t[0] in t && (t + ([QUOTE] + rest))[0] == t[0];
      assert (t + ([QUOTE] + rest))[1..] == t[1..] + ([QUOTE] + rest);
      QuoteLengthIs(t[1..], rest);
    }
  }

  lemma {:induction false} SkipOr(rest: Text)
    ensures Phrases(OR + rest) == Phrases(rest)
  {
    SkipRune(BLANK, rest);
    SkipRune(Word(82), [BLANK] + rest);
    SkipRune(Word(79), [Word(82)] + ([BLANK] + rest));
    SkipRune(BLANK, [Word(79)] + ([Word(82)] + ([BLANK] + rest)));
    assert OR + rest == [BLANK] + ([Word(79)] + ([Word(82)] + ([BLANK] + rest)));
  }

  lemma {:induction false} SkipRune(r: Rune, rest: Text)
    requires r != QUOTE
    ensures Phrases([r] + rest) == Phrases(rest)
  {
    assert ([r] + rest)[1..] == rest;
  }

  /** The match expression of SQLite quotes exactly the tokens, in order. */
  lemma {:induction false} MatchExpressionPhrases(tokens: seq<Text>)
    requires AllTokens(tokens)
    ensures Phrases(MatchExpression(tokens)) == tokens
  {
    if tokens != [] {
      var t, rest := tokens[0], tokens[1..];
      assert t in tokens;
      MatchExpressionPhrases(rest);
      assert QuotedAll(tokens)[1..] == QuotedAll(rest);
      if |tokens| == 1 {
        FirstPhrase(t, []);
        assert Quoted(t) + [] == Quoted(t);
      } else {
        var tail := OR + MatchExpression(rest);
        FirstPhrase(t, tail);
        assert Quoted(t) + OR + MatchExpression(rest) == Quoted(t) + tail;
        SkipOr(MatchExpression(rest));
      }
    }
  }

  /** No tokenizer's output is ever rejected, and all three text forms carry exactly its tokens. */
  lemma {:induction false} TokenizerOutputSurvives(t: Text, a: Analyser, tokens: seq<Text>)
    requires tokens in [BigramTokens(t), KagomeTokens(t, a), UnionTokens(t, a)]
    ensures TokensAccepted(tokens)
    ensures Fields(LexemeText(tokens)) == tokens
    ensures Operands(Fields(TsQuery(tokens))) == tokens
    ensures Phrases(MatchExpression(tokens)) == tokens
  {
    TokenizersEmitTokens(t, a);
    LexemeTextSplitsBack(tokens);
    TsQueryOperands(tokens);
    MatchExpressionPhrases(tokens);
  }
}
