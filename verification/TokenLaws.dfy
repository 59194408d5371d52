/** What the tokenizers make of a text, read from its front, and how the three text forms are put together. */
module TokenLaws {
  import opened Sequences
  import opened Wrappers
  import opened Runes
  import opened Tokenizers
  import opened TokenEncoding

  // ----- What stands at the front of a text -----

  lemma {:induction false} CjkRunLength(run: Text, rest: Text)
    requires (forall r | r in run :: r.Cjk?) && (rest == [] || !rest[0].Cjk?)
    ensures CjkLength(run + rest) == |run|
  {
    if run == [] {
      assert run + rest == rest;
    } else {
      assert run[0] in run && (run + rest)[1..] == run[1..] + rest;
      CjkRunLength(run[1..], rest);
    }
  }

  lemma {:induction false} CjkFront(run: Text, rest: Text)
    requires run != [] && (forall r | r in run :: r.Cjk?) && (rest == [] || !rest[0].Cjk?)
    ensures Pieces(run + rest) == [CjkPiece(run)] + Pieces(rest)
  {
    CjkRunLength(run, rest);
    assert run[0] in run && (run + rest)[..|run|] == run && (run + rest)[|run|..] == rest;
  }

  /** A maximal run of CJK runes gives its overlapping pairs, or its one rune, before the tokens of what follows. */
  lemma {:induction false} CjkRunThenRest(run: Text, rest: Text)
    requires run != [] && (forall r | r in run :: r.Cjk?) && (rest == [] || !rest[0].Cjk?)
    ensures BigramTokens(run + rest) ==
            (if |run| == 1 then [run] else seq(|run| - 1, i requires 0 <= i < |run| - 1 => [run[i], run[i + 1]])) + BigramTokens(rest)
  {
    CjkFront(run, rest);
    FirstCut(CjkPiece(run), Pieces(rest), BigramCut());
    if |run| > 1 {
      var pairs := seq(|run| - 1, i requires 0 <= i < |run| - 1 => [run[i], run[i + 1]]);
      forall i | 0 <= i < |run| - 1
        ensures Pairs(run)[i] == pairs[i]
      {
        assert run[i..i + 2] == [run[i], run[i + 1]];
      }
      assert Bigrams(run) == pairs;
    }
  }

  lemma {:induction false} FirstCut(p: Piece, ps: seq<Piece>, cut: Text -> seq<Text>)
    ensures Cut([p] + ps, cut) == CutPiece(p, cut) + Cut(ps, cut)
  {
    assert ([p] + ps)[1..] == ps;
  }

  lemma {:induction false} WordRunLength(w: Text, rest: Text)
    requires forall i | 0 <= i < |w| :: w[i].Word? || (w[i].Connector? && i + 1 < |w| && w[i + 1].Word?)
    requires rest == [] || !(rest[0].Word? || (rest[0].Connector? && |rest| > 1 && rest[1].Word?))
    ensures WordLength(w + rest) == |w|
  {
    if w == [] {
      assert w + rest == rest;
    } else {
      var u := w[1..];
      assert (w + rest)[1..] == u + rest && (w + rest)[0] == w[0];
      if |w| > 1 {
        assert (w + rest)[1] == w[1];
      }
      forall i | 0 <= i < |u|
        ensures u[i].Word? || (u[i].Connector? && i + 1 < |u| && u[i + 1].Word?)
      {
        assert u[i] == w[i + 1];
      }
      WordRunLength(u, rest);
    }
  }

  /** A word run with its inner connectors, as far as it goes, is one token of both tokenizers. */
  lemma {:induction false} WordThenRest(w: Text, rest: Text, a: Analyser)
    requires w != [] && w[0].Word?
    requires forall i | 0 <= i < |w| :: w[i].Word? || (w[i].Connector? && i + 1 < |w| && w[i + 1].Word?)
    requires rest == [] || !(rest[0].Word? || (rest[0].Connector? && |rest| > 1 && rest[1].Word?))
    ensures BigramTokens(w + rest) == [w] + BigramTokens(rest)
    ensures KagomeTokens(w + rest, a) == [w] + KagomeTokens(rest, a)
  {
    WordRunLength(w, rest);
    assert (w + rest)[..|w|] == w && (w + rest)[|w|..] == rest && (w + rest)[0] == w[0];
    assert Pieces(w + rest) == [WordPiece(w)] + Pieces(rest);
    FirstCut(WordPiece(w), Pieces(rest), BigramCut());
    FirstCut(WordPiece(w), Pieces(rest), MorphemeCut(a));
  }

  /** Any other rune is dropped: white space, meta characters, and a connector that stands in no word. */
  lemma {:induction false} OtherRuneThenRest(r: Rune, rest: Text, a: Analyser)
    requires !r.Cjk? && !r.Word?
    ensures BigramTokens([r] + rest) == BigramTokens(rest)
    ensures KagomeTokens([r] + rest, a) == KagomeTokens(rest, a)
    ensures BigramTokens([]) == [] && KagomeTokens([], a) == []
  {
    assert ([r] + rest)[1..] == rest;
  }

  // ----- Morphemes -----

  /** A content morpheme, or one without a part of speech, is kept; symbols, particles and auxiliary verbs are not. */
  ghost predicate IsKept(m: Morpheme, text: Text) {
    && (m.pos == [] || (m.pos[0] != Symbol && m.pos[0] != Particle && m.pos[0] != AuxiliaryVerb))
    && (if m.baseForm.Some? && m.baseForm.value != [] && m.baseForm.value != [Meta(42)] then text == m.baseForm.value else text == m.surface)
    && text != [] && forall r | r in text :: !r.Space? && !r.Meta?
  }

  ghost predicate IsDropped(m: Morpheme) {
    forall text :: !IsKept(m, text)
  }

  /** `kept` are the places of the kept morphemes, in order, and `tokens` their texts. */
  ghost predicate AreKept(ms: seq<Morpheme>, kept: seq<nat>, tokens: seq<Text>) {
    && |kept| == |tokens|
    && (forall j, k | 0 <= j < k < |kept| :: kept[j] < kept[k])
    && (forall j | 0 <= j < |kept| :: kept[j] < |ms| && IsKept(ms[kept[j]], tokens[j]))
    && (forall i | 0 <= i < |ms| && i !in kept :: IsDropped(ms[i]))
  }

  lemma {:induction false} MorphemesAreKept(ms: seq<Morpheme>) returns (kept: seq<nat>)
    ensures AreKept(ms, kept, Morphemes(ms))
  {
    if ms == [] {
      kept := [];
    } else {
      var n := |ms| - 1;
      kept := MorphemesAreKept(ms[..n]);
      var last, before := ms[n], Morphemes(ms[..n]);
      if !IsFunctionWord(last.pos) && IsToken(BaseOrSurface(last)) {
        assert IsKept(last, BaseOrSurface(last));
        assert Morphemes(ms) == before + [BaseOrSurface(last)];
        hide IsKept, Morphemes;
        KeepLast(ms, kept, before, BaseOrSurface(last));
        kept := kept + [n];
      } else {
        assert IsDropped(last);
        assert Morphemes(ms) == before + [] == before;
        hide IsKept, Morphemes;
        DropLast(ms, kept, before);
      }
    }
  }

  lemma {:induction false} KeepLast(ms: seq<Morpheme>, kept: seq<nat>, tokens: seq<Text>, text: Text)
    requires ms != [] && AreKept(ms[..|ms| - 1], kept, tokens) && IsKept(ms[|ms| - 1], text)
    ensures AreKept(ms, kept + [|ms| - 1], tokens + [text])
  {
    hide IsKept;
    var n := |ms| - 1;
    var more := kept + [n];
    forall i | 0 <= i < |ms| && i !in more
      ensures IsDropped(ms[i])
    {
      assert n in more;
      assert i in kept ==> i in more;
      assert ms[..n][i] == ms[i];
    }
  }

  lemma {:induction false} DropLast(ms: seq<Morpheme>, kept: seq<nat>, tokens: seq<Text>)
    requires ms != [] && AreKept(ms[..|ms| - 1], kept, tokens) && IsDropped(ms[|ms| - 1])
    ensures AreKept(ms, kept, tokens)
  {
    hide IsKept;
    var n := |ms| - 1;
    forall i | 0 <= i < |ms| && i !in kept
      ensures IsDropped(ms[i])
    {
      if i < n {
        assert ms[..n][i] == ms[i];
      }
    }
  }

  /** A maximal run of CJK runes gives one token for each kept morpheme, in order, before the tokens of what follows:
      its base form if that is known, else its surface. */
  lemma {:induction false} MorphemesThenRest(run: Text, rest: Text, a: Analyser)
    requires run != [] && (forall r | r in run :: r.Cjk?) && (rest == [] || !rest[0].Cjk?)
    ensures exists kept, tokens :: AreKept(a(run), kept, tokens) && KagomeTokens(run + rest, a) == tokens + KagomeTokens(rest, a)
  {
    CjkFront(run, rest);
    FirstCut(CjkPiece(run), Pieces(rest), MorphemeCut(a));
    var kept := MorphemesAreKept(a(run));
    assert CutPiece(CjkPiece(run), MorphemeCut(a)) == Morphemes(a(run));
    hide AreKept, Morphemes;
    assert KagomeTokens(run + rest, a) == Morphemes(a(run)) + KagomeTokens(rest, a);
  }

  /** There is no choice in that. */
  lemma {:induction false} KeptIsUnique(ms: seq<Morpheme>, kept: seq<nat>, tokens: seq<Text>, kept': seq<nat>, tokens': seq<Text>)
    requires AreKept(ms, kept, tokens) && AreKept(ms, kept', tokens')
    ensures kept == kept' && tokens == tokens'
  {
    SameMembers(ms, kept, tokens, kept', tokens');
    SameMembers(ms, kept', tokens', kept, tokens);
    IncreasingIsUnique(kept, kept');
    forall j | 0 <= j < |kept|
      ensures tokens[j] == tokens'[j]
    {
    }
  }

  lemma {:induction false} SameMembers(ms: seq<Morpheme>, kept: seq<nat>, tokens: seq<Text>, kept': seq<nat>, tokens': seq<Text>)
    requires AreKept(ms, kept, tokens) && AreKept(ms, kept', tokens')
    ensures forall i | i in kept :: i in kept'
  {
    hide IsKept;
    forall i | i in kept
      ensures i in kept'
    {
      var j :| 0 <= j < |kept| && kept[j] == i;
      assert IsKept(ms[i], tokens[j]);
    }
  }

  /** The union has the bigrams first, then the morphemes, and removes nothing. */
  lemma {:induction false} UnionIsBoth(t: Text, a: Analyser)
    ensures |UnionTokens(t, a)| == |BigramTokens(t)| + |KagomeTokens(t, a)|
    ensures forall i | 0 <= i < |UnionTokens(t, a)| ::
              UnionTokens(t, a)[i] == if i < |BigramTokens(t)| then BigramTokens(t)[i] else KagomeTokens(t, a)[i - |BigramTokens(t)|]
  {
  }

  // ----- The text forms -----

  lemma {:induction false} JoinConcat(a: seq<Text>, b: seq<Text>, separator: Text)
    requires a != [] && b != []
    ensures Join(a + b, separator) == Join(a, separator) + separator + Join(b, separator)
  {
    assert (a + b)[0] == a[0] && (a + b)[1..] == a[1..] + b;
    if |a| == 1 {
      assert a[1..] + b == b;
    } else {
      JoinConcat(a[1..], b, separator);
      var x, y, z := a[0] + separator, Join(a[1..], separator), separator + Join(b, separator);
      assert Join(a + b, separator) == x + (y + separator + Join(b, separator)) == x + y + z;
    }
  }

  /** The stored text joins tokens with single blanks, a tsquery with a bar between blanks. */
  lemma {:induction false} JoinedTexts(a: seq<Text>, b: seq<Text>, t: Text)
    requires a != [] && b != []
    ensures LexemeText([]) == [] && LexemeText([t]) == t && LexemeText(a + b) == LexemeText(a) + [Space(32)] + LexemeText(b)
    ensures TsQuery([]) == [] && TsQuery([t]) == t
    ensures TsQuery(a + b) == TsQuery(a) + [Space(32), Meta(124), Space(32)] + TsQuery(b)
  {
    JoinConcat(a, b, [BLANK]);
    JoinConcat(a, b, [BLANK, PIPE, BLANK]);
  }

  /** A match expression quotes each token and puts OR between two of them. */
  lemma {:induction false} JoinedPhrases(a: seq<Text>, b: seq<Text>, t: Text)
    requires a != [] && b != []
    ensures MatchExpression([]) == [] && MatchExpression([t]) == [Meta(34)] + t + [Meta(34)]
    ensures MatchExpression(a + b) == MatchExpression(a) + [Space(32), Word(79), Word(82), Space(32)] + MatchExpression(b)
  {
    assert QuotedAll(a + b) == QuotedAll(a) + QuotedAll(b) && QuotedAll([]) == [] && QuotedAll([t]) == [Quoted(t)];
    JoinConcat(QuotedAll(a), QuotedAll(b), OR);
  }
}
