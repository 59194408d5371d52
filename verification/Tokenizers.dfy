/** The three tokenizers, over normalised runes.

    Both scanners cut a text at the same places: a maximal CJK run, a word run with its inner
    connectors, or a separator that is dropped.  They differ only in what becomes of a CJK run.
 */
module Tokenizers {
  import opened Sequences
  import opened Wrappers
  import opened Runes

  predicate IsSeparator(r: Rune) {
    r.Space? || r.Meta? || r.Other?
  }

  // ----- Where words end -----

  /** The length of the word token at the start of a text: a connector counts only when a word rune follows it. */
  function WordLength(t: Text): (n: nat)
    ensures n <= |t|
  {
    if t == [] then 0
    else if t[0].Word? then 1 + WordLength(t[1..])
    else if t[0].Connector? && |t| > 1 && t[1].Word? then 1 + WordLength(t[1..])
    else 0
  }

  function CjkLength(t: Text): (n: nat)
    ensures n <= |t|
    ensures forall i | 0 <= i < n :: t[i].Cjk?
    ensures n < |t| ==> !t[n].Cjk?
  {
    if t != [] && t[0].Cjk? then 1 + CjkLength(t[1..]) else 0
  }

  /** The end of the word token that starts at `start`, with one rune of lookahead. */
  method End(runes: Text, start: nat) returns (end: nat)
    requires start <= |runes|
    ensures end == start + WordLength(runes[start..])
  {
    end := start;
    while end < |runes|
      invariant start <= end <= |runes|
      invariant start + WordLength(runes[start..]) == end + WordLength(runes[end..])
    {
      assert runes[end..][1..] == runes[end + 1..];
      if runes[end].Word? {
        end := end + 1;
      } else if runes[end].Connector? && end + 1 < |runes| && runes[end + 1].Word? {
        end := end + 1;
      } else {
        return;
      }
    }
  }

  method CjkRunEnd(runes: Text, start: nat) returns (end: nat)
    requires start <= |runes|
    ensures end == start + CjkLength(runes[start..])
  {
    end := start;
    while end < |runes| && runes[end].Cjk?
      invariant start <= end <= |runes|
      invariant start + CjkLength(runes[start..]) == end + CjkLength(runes[end..])
    {
      assert runes[end..][1..] == runes[end + 1..];
      end := end + 1;
    }
  }

  // ----- Pieces -----

  datatype Piece = WordPiece(text: Text) | CjkPiece(text: Text)

  function Pieces(t: Text): seq<Piece>
    decreases |t|
  {
    if t == [] then []
    else if t[0].Cjk? then [CjkPiece(t[..CjkLength(t)])] + Pieces(t[CjkLength(t)..])
    else if t[0].Word? then [WordPiece(t[..WordLength(t)])] + Pieces(t[WordLength(t)..])
    else Pieces(t[1..])
  }

  /** The tokens of a piece sequence when a CJK run is cut by `cut`. */
  function Cut(ps: seq<Piece>, cut: Text -> seq<Text>): seq<Text> {
    if ps == [] then [] else CutPiece(ps[0], cut) + Cut(ps[1..], cut)
  }

  function CutPiece(p: Piece, cut: Text -> seq<Text>): seq<Text> {
    match p
    case WordPiece(w) => [w]
    case CjkPiece(run) => cut(run)
  }

  lemma {:induction false} CutAppend(a: seq<Piece>, b: seq<Piece>, cut: Text -> seq<Text>)
    ensures Cut(a + b, cut) == Cut(a, cut) + Cut(b, cut)
  {
    if a == [] {
      assert a + b == b;
    } else {
      CutAppend(a[1..], b, cut);
      assert (a + b)[1..] == a[1..] + b;
      Associate(CutPiece(a[0], cut), Cut(a[1..], cut), Cut(b, cut));
    }
  }

  /** What a scanner at position i still has to emit. */
  function Remaining(runes: Text, i: nat, cut: Text -> seq<Text>): seq<Text>
    requires i <= |runes|
  {
    Cut(Pieces(runes[i..]), cut)
  }

  /** The length of the run a scanner consumes at position i, and what it emits for it. */
  function RunAt(runes: Text, i: nat): nat
    requires i < |runes|
  {
    if runes[i].Cjk? then CjkLength(runes[i..]) else if runes[i].Word? then WordLength(runes[i..]) else 1
  }

  function EmitAt(runes: Text, i: nat, cut: Text -> seq<Text>): seq<Text>
    requires i < |runes|
  {
    var run := runes[i..][..RunAt(runes, i)];
    if runes[i].Cjk? then cut(run) else if runes[i].Word? then [run] else []
  }

  /** One step of a scanner keeps what is emitted plus what remains. */
  lemma {:induction false} ScanStep(runes: Text, i: nat, cut: Text -> seq<Text>, tokens: seq<Text>, total: seq<Text>)
    requires i < |runes| && tokens + Remaining(runes, i, cut) == total
    ensures i < i + RunAt(runes, i) <= |runes|
    ensures runes[i..][..RunAt(runes, i)] == runes[i..i + RunAt(runes, i)]
    ensures tokens + EmitAt(runes, i, cut) + Remaining(runes, i + RunAt(runes, i), cut) == total
  {
    var t, n := runes[i..], RunAt(runes, i);
    assert t[n..] == runes[i + n..];
    if t[0].Cjk? || t[0].Word? {
      assert Pieces(t)[1..] == Pieces(t[n..]);
    }
    Associate(tokens, EmitAt(runes, i, cut), Remaining(runes, i + n, cut));
  }

  lemma {:induction false} NothingRemains(runes: Text, cut: Text -> seq<Text>)
    ensures Remaining(runes, |runes|, cut) == []
  {
  }

  // ----- Bigrams -----

  /** Overlapping pairs; a run of one rune is its own token. */
  function Bigrams(run: Text): seq<Text> {
    if |run| < 2 then [run] else Pairs(run)
  }

  function Pairs(run: Text): (ps: seq<Text>)
    requires |run| >= 1
    ensures |ps| == |run| - 1
    ensures forall i | 0 <= i < |ps| :: ps[i] == run[i..i + 2]
  {
    seq(|run| - 1, i requires 0 <= i < |run| - 1 => run[i..i + 2])
  }

  method AppendBigrams(tokens: seq<Text>, run: Text) returns (out: seq<Text>)
    ensures out == tokens + BigramCut()(run)
  {
    if |run| < 2 {
      return tokens + [run];
    }
    out := tokens;
    var i := 0;
    while i + 2 <= |run|
      invariant 0 <= i <= |run| - 1
      invariant out == tokens + Pairs(run)[..i]
    {
      out := out + [run[i..i + 2]];
      i := i + 1;
    }
  }

  function BigramCut(): Text -> seq<Text> {
    run => Bigrams(run)
  }

  function BigramTokens(t: Text): seq<Text> {
    Cut(Pieces(t), BigramCut())
  }

  method BigramTokenize(runes: Text) returns (tokens: seq<Text>)
    ensures tokens == BigramTokens(runes)
  {
    hide Cut, Pieces, CjkLength, WordLength;
    tokens := [];
    var i := 0;
    assert runes[0..] == runes;
    while i < |runes|
      invariant 0 <= i <= |runes|
      invariant tokens + Remaining(runes, i, BigramCut()) == BigramTokens(runes)
      decreases |runes| - i
    {
      ScanStep(runes, i, BigramCut(), tokens, BigramTokens(runes));
      if runes[i].Cjk? {
        var end := CjkRunEnd(runes, i);
        assert EmitAt(runes, i, BigramCut()) == BigramCut()(runes[i..end]);
        tokens := AppendBigrams(tokens, runes[i..end]);
        i := end;
      } else if runes[i].Word? {
        var end := End(runes, i);
        assert EmitAt(runes, i, BigramCut()) == [runes[i..end]];
        tokens := tokens + [runes[i..end]];
        i := end;
      } else {
        i := i + 1;
      }
    }
    NothingRemains(runes, BigramCut());
  }

  // ----- Morphemes -----

  datatype PartOfSpeech = Symbol | Particle | AuxiliaryVerb | Content

  datatype Morpheme = Morpheme(pos: seq<PartOfSpeech>, baseForm: Option<Text>, surface: Text)

  /** The dictionary analyser, about which nothing is assumed. */
  type Analyser = Text -> seq<Morpheme>

  const BASE_FORM_UNKNOWN: Text := [Meta(42)]

  predicate IsFunctionWord(pos: seq<PartOfSpeech>) {
    |pos| > 0 && !pos[0].Content?
  }

  function BaseOrSurface(m: Morpheme): Text {
    if m.baseForm.Some? && m.baseForm.value != [] && m.baseForm.value != BASE_FORM_UNKNOWN then m.baseForm.value else m.surface
  }

  /** What the stores accept as a token, and the tokenizers emit: not empty, no white space, no meta character. */
  predicate IsToken(t: Text) {
    t != [] && forall r | r in t :: !r.Space? && !r.Meta?
  }

  function KeepToken(t: Text): seq<Text> {
    if IsToken(t) then [t] else []
  }

  function Morphemes(ms: seq<Morpheme>): seq<Text> {
    if ms == [] then []
    else Morphemes(ms[..|ms| - 1])
         + (if IsFunctionWord(ms[|ms| - 1].pos) then [] else KeepToken(BaseOrSurface(ms[|ms| - 1])))
  }

  function MorphemeCut(a: Analyser): Text -> seq<Text> {
    run => Morphemes(a(run))
  }

  function KagomeTokens(t: Text, a: Analyser): seq<Text> {
    Cut(Pieces(t), MorphemeCut(a))
  }

  method AppendMorphemes(tokens: seq<Text>, run: Text, a: Analyser) returns (out: seq<Text>)
    ensures out == tokens + MorphemeCut(a)(run)
  {
    out := tokens;
    var ms := a(run);
    for i := 0 to |ms|
      invariant out == tokens + Morphemes(ms[..i])
    {
      assert ms[..i + 1][..i] == ms[..i];
      if IsFunctionWord(ms[i].pos) {
        continue;
      }
      out := out + KeepToken(BaseOrSurface(ms[i]));
    }
    assert ms[..|ms|] == ms;
  }

  /** A word run passes the token filter untouched. */
  method KagomeTokenize(runes: Text, a: Analyser) returns (tokens: seq<Text>)
    ensures tokens == KagomeTokens(runes, a)
  {
    hide Cut, Pieces, CjkLength, WordLength;
    tokens := [];
    var i := 0;
    assert runes[0..] == runes;
    while i < |runes|
      invariant 0 <= i <= |runes|
      invariant tokens + Remaining(runes, i, MorphemeCut(a)) == KagomeTokens(runes, a)
      decreases |runes| - i
    {
      ScanStep(runes, i, MorphemeCut(a), tokens, KagomeTokens(runes, a));
      if runes[i].Cjk? {
        var end := CjkRunEnd(runes, i);
        tokens := AppendMorphemes(tokens, runes[i..end], a);
        i := end;
      } else if runes[i].Word? {
        var end := End(runes, i);
        WordTokenIsToken(runes[i..]);
        tokens := tokens + KeepToken(runes[i..end]);
        i := end;
      } else {
        i := i + 1;
      }
    }
    NothingRemains(runes, MorphemeCut(a));
  }

  // ----- Union -----

  function UnionTokens(t: Text, a: Analyser): seq<Text> {
    BigramTokens(t) + KagomeTokens(t, a)
  }

  // ----- Word tokens are identifiers -----

  /** Word runes and connectors, starting with a word rune and with a word rune after every connector. */
  predicate IsIdentifier(t: Text) {
    && t != [] && t[0].Word?
    && forall i | 0 <= i < |t| :: t[i].Word? || (t[i].Connector? && i + 1 < |t| && t[i + 1].Word?)
  }

  lemma {:induction false} WordLengthShape(t: Text)
    ensures forall i | 0 <= i < WordLength(t) ::
              t[i].Word? || (t[i].Connector? && i + 1 < WordLength(t) && t[i + 1].Word?)
  {
    if WordLength(t) > 0 {
      WordLengthShape(t[1..]);
      forall i | 0 <= i < WordLength(t)
        ensures t[i].Word? || (t[i].Connector? && i + 1 < WordLength(t) && t[i + 1].Word?)
      {
        if i > 0 {
          assert t[i] == t[1..][i - 1];
        }
      }
    }
  }

  lemma {:induction false} WordTokenIsToken(t: Text)
    requires t != [] && t[0].Word?
    ensures WordLength(t) >= 1
    ensures IsIdentifier(t[..WordLength(t)]) && IsToken(t[..WordLength(t)])
  {
    WordLengthShape(t);
  }

  lemma {:induction false} IdentifierLength(t: Text)
    requires forall i | 0 <= i < |t| :: t[i].Word? || (t[i].Connector? && i + 1 < |t| && t[i + 1].Word?)
    ensures WordLength(t) == |t|
  {
    if t != [] {
      var u := t[1..];
      forall i | 0 <= i < |u|
        ensures u[i].Word? || (u[i].Connector? && i + 1 < |u| && u[i + 1].Word?)
      {
        assert u[i] == t[i + 1];
      }
      IdentifierLength(u);
    }
  }

  /** A text is cut into exactly one word piece, itself, when and only when it is an identifier. */
  lemma {:induction false} IdentifiersAreOneToken(t: Text)
    ensures Pieces(t) == [WordPiece(t)] <==> IsIdentifier(t)
  {
    if IsIdentifier(t) {
      IdentifierLength(t);
      assert t[..|t|] == t && t[|t|..] == [];
    }
    if Pieces(t) == [WordPiece(t)] {
      PieceShapes(t);
      assert WordPiece(t) in Pieces(t);
    }
  }

  predicate WellShaped(p: Piece) {
    match p
    case WordPiece(w) => IsIdentifier(w)
    case CjkPiece(run) => run != [] && forall r | r in run :: r.Cjk?
  }

  lemma {:induction false} PieceShapes(t: Text)
    ensures forall p | p in Pieces(t) :: WellShaped(p)
    decreases |t|
  {
    if t != [] {
      if t[0].Cjk? {
        PieceShapes(t[CjkLength(t)..]);
      } else if t[0].Word? {
        WordTokenIsToken(t);
        PieceShapes(t[WordLength(t)..]);
      } else {
        PieceShapes(t[1..]);
      }
    }
  }

  // ----- Separators -----

  lemma {:induction false} WordLengthStops(a: Text, r: Rune, b: Text)
    requires IsSeparator(r)
    ensures WordLength(a + [r] + b) == WordLength(a)
  {
    var t := a + [r] + b;
    if a == [] {
      assert t[0] == r;
    } else {
      assert t[1..] == a[1..] + [r] + b;
      WordLengthStops(a[1..], r, b);
      if |a| > 1 {
        assert t[1] == a[1];
      } else {
        assert t[1] == r;
      }
    }
  }

  lemma {:induction false} CjkLengthStops(a: Text, r: Rune, b: Text)
    requires !r.Cjk?
    ensures CjkLength(a + [r] + b) == CjkLength(a)
  {
    var t := a + [r] + b;
    if a == [] {
      assert t[0] == r;
    } else {
      assert t[1..] == a[1..] + [r] + b;
      CjkLengthStops(a[1..], r, b);
    }
  }

  lemma {:induction false} PiecesSplit(a: Text, r: Rune, b: Text)
    requires IsSeparator(r)
    ensures Pieces(a + [r] + b) == Pieces(a) + Pieces(b)
    decreases |a|
  {
    var t := a + [r] + b;
    if a == [] {
      assert t[1..] == b;
    } else {
      var n := if a[0].Cjk? then CjkLength(a) else if a[0].Word? then WordLength(a) else 1;
      CjkLengthStops(a, r, b);
      WordLengthStops(a, r, b);
      assert t[0] == a[0] && t[..n] == a[..n] && t[n..] == a[n..] + [r] + b;
      PiecesSplit(a[n..], r, b);
      Associate(FirstPiece(a, n), Pieces(a[n..]), Pieces(b));
      assert Pieces(a) == FirstPiece(a, n) + Pieces(a[n..]);
      assert Pieces(t) == FirstPiece(a, n) + Pieces(t[n..]);
    }
  }

  function FirstPiece(t: Text, n: nat): seq<Piece>
    requires t != [] && n <= |t|
  {
    if t[0].Cjk? then [CjkPiece(t[..n])] else if t[0].Word? then [WordPiece(t[..n])] else []
  }

  /** Despite the lookahead, a separator cuts a text into two that are tokenized independently, by every tokenizer. */
  lemma {:induction false} SeparatorsSplit(a: Text, r: Rune, b: Text, analyser: Analyser)
    requires IsSeparator(r)
    ensures BigramTokens(a + [r] + b) == BigramTokens(a) + BigramTokens(b)
    ensures KagomeTokens(a + [r] + b, analyser) == KagomeTokens(a, analyser) + KagomeTokens(b, analyser)
  {
    PiecesSplit(a, r, b);
    CutAppend(Pieces(a), Pieces(b), BigramCut());
    CutAppend(Pieces(a), Pieces(b), MorphemeCut(analyser));
  }

  /** Exactly the runes that are not CJK, word or connector separate. */
  lemma {:induction false} ExactlySeparatorsSplit(r: Rune)
    ensures (forall a, b :: BigramTokens(a + [r] + b) == BigramTokens(a) + BigramTokens(b)) <==> IsSeparator(r)
  {
    if IsSeparator(r) {
      forall a, b
        ensures BigramTokens(a + [r] + b) == BigramTokens(a) + BigramTokens(b)
      {
        SeparatorsSplit(a, r, b, _ => []);
      }
    } else if r.Connector? {
      var w: Text := [Word(97)];
      var t := w + [r] + w;
      assert t == [Word(97), r, Word(97)];
      assert IsIdentifier(t) && IsIdentifier(w);
      OneWordPiece(t);
      OneWordPiece(w);
      assert |BigramTokens(w + [r] + w)| == 1 && |BigramTokens(w) + BigramTokens(w)| == 2;
    } else {
      var e: Text := [];
      var t := e + [r] + e;
      assert t == [r];
      PieceCount(t, r);
      assert BigramTokens(e + [r] + e) != BigramTokens(e) + BigramTokens(e);
    }
  }

  lemma {:induction false} PieceCount(t: Text, r: Rune)
    requires t == [r] && (r.Word? || r.Cjk?)
    ensures BigramTokens(t) == [t]
  {
    if r.Word? {
      assert IsIdentifier(t);
      OneWordPiece(t);
    } else {
      assert CjkLength(t) == 1 && t[..1] == t && t[1..] == [];
      assert Pieces(t) == [CjkPiece(t)];
      assert Cut([CjkPiece(t)], BigramCut()) == Bigrams(t) + Cut([], BigramCut()) == [t];
    }
  }

  lemma {:induction false} OneWordPiece(t: Text)
    requires IsIdentifier(t)
    ensures BigramTokens(t) == [t]
  {
    IdentifiersAreOneToken(t);
    assert Cut([WordPiece(t)], BigramCut()) == [t] + Cut([], BigramCut()) == [t];
  }

  // ----- The same words in every tokenizer -----

  datatype Tagged = FromWord(text: Text) | FromCjk(text: Text)

  /** The tokens of Cut, each with the kind of run it came from. */
  function CutTagged(ps: seq<Piece>, cut: Text -> seq<Text>): seq<Tagged> {
    if ps == [] then []
    else (match ps[0]
          case WordPiece(w) => [FromWord(w)]
          case CjkPiece(run) => TagCjk(cut(run)))
         + CutTagged(ps[1..], cut)
  }

  function TagCjk(ts: seq<Text>): (gs: seq<Tagged>)
    ensures |gs| == |ts| && forall i | 0 <= i < |ts| :: gs[i] == FromCjk(ts[i])
  {
    seq(|ts|, i requires 0 <= i < |ts| => FromCjk(ts[i]))
  }

  function Untag(gs: seq<Tagged>): (ts: seq<Text>)
    ensures |ts| == |gs| && forall i | 0 <= i < |gs| :: ts[i] == gs[i].text
  {
    seq(|gs|, i requires 0 <= i < |gs| => gs[i].text)
  }

  function WordsOf(gs: seq<Tagged>): seq<Text> {
    if gs == [] then []
    else (if gs[0].FromWord? then [gs[0].text] else []) + WordsOf(gs[1..])
  }

  lemma {:induction false} WordsOfAppend(a: seq<Tagged>, b: seq<Tagged>)
    ensures WordsOf(a + b) == WordsOf(a) + WordsOf(b)
  {
    if a == [] {
      assert a + b == b;
    } else {
      WordsOfAppend(a[1..], b);
      assert (a + b)[1..] == a[1..] + b;
      Associate(if a[0].FromWord? then [a[0].text] else [], WordsOf(a[1..]), WordsOf(b));
    }
  }

  lemma {:induction false} NoWordsFromCjk(ts: seq<Text>)
    ensures WordsOf(TagCjk(ts)) == []
  {
    if ts != [] {
      NoWordsFromCjk(ts[1..]);
      assert TagCjk(ts)[1..] == TagCjk(ts[1..]);
    }
  }

  /** Tagging does not change the tokens, and the tokens that come from word runs do not depend on
      how CJK runs are cut. */
  lemma {:induction false} SameWords(ps: seq<Piece>, cut: Text -> seq<Text>, other: Text -> seq<Text>)
    ensures Untag(CutTagged(ps, cut)) == Cut(ps, cut)
    ensures WordsOf(CutTagged(ps, cut)) == WordsOf(CutTagged(ps, other))
  {
    if ps != [] {
      SameWords(ps[1..], cut, other);
      if ps[0].CjkPiece? {
        WordsOfAppend(TagCjk(cut(ps[0].text)), CutTagged(ps[1..], cut));
        WordsOfAppend(TagCjk(other(ps[0].text)), CutTagged(ps[1..], other));
        NoWordsFromCjk(cut(ps[0].text));
        NoWordsFromCjk(other(ps[0].text));
        assert Untag(TagCjk(cut(ps[0].text))) == cut(ps[0].text);
      }
    }
  }

  /** For every analyser, the morphological tokenizer has the same word tokens as the bigram one, in the same order. */
  lemma {:induction false} KagomeKeepsBigramWords(t: Text, a: Analyser)
    ensures Untag(CutTagged(Pieces(t), BigramCut())) == BigramTokens(t)
    ensures Untag(CutTagged(Pieces(t), MorphemeCut(a))) == KagomeTokens(t, a)
    ensures WordsOf(CutTagged(Pieces(t), BigramCut())) == WordsOf(CutTagged(Pieces(t), MorphemeCut(a)))
  {
    SameWords(Pieces(t), BigramCut(), MorphemeCut(a));
    SameWords(Pieces(t), MorphemeCut(a), BigramCut());
  }

  // ----- Every token is a token -----

  ghost predicate AllTokens(ts: seq<Text>) {
    forall t | t in ts :: IsToken(t)
  }

  lemma {:induction false} CutTokens(ps: seq<Piece>, cut: Text -> seq<Text>)
    requires forall p | p in ps :: WellShaped(p)
    requires forall run | CjkPiece(run) in ps :: AllTokens(cut(run))
    ensures AllTokens(Cut(ps, cut))
  {
    if ps != [] {
      assert ps[0] in ps;
      CutTokens(ps[1..], cut);
    }
  }

  lemma {:induction false} MorphemesAreTokens(ms: seq<Morpheme>)
    ensures AllTokens(Morphemes(ms))
  {
    if ms != [] {
      MorphemesAreTokens(ms[..|ms| - 1]);
    }
  }

  lemma {:induction false} BigramsAreTokens(run: Text)
    requires run != [] && forall r | r in run :: r.Cjk?
    ensures AllTokens(Bigrams(run))
  {
    forall p | p in Bigrams(run)
      ensures IsToken(p)
    {
      if |run| >= 2 {
        var i :| 0 <= i < |Pairs(run)| && p == Pairs(run)[i];
        assert p == [run[i], run[i + 1]];
        assert run[i] in run && run[i + 1] in run;
      }
    }
  }

  /** Whatever the text and the analyser, all three tokenizers emit only tokens. */
  lemma {:induction false} TokenizersEmitTokens(t: Text, a: Analyser)
    ensures AllTokens(BigramTokens(t)) && AllTokens(KagomeTokens(t, a)) && AllTokens(UnionTokens(t, a))
  {
    PieceShapes(t);
    forall run | CjkPiece(run) in Pieces(t)
      ensures AllTokens(BigramCut()(run)) && AllTokens(MorphemeCut(a)(run))
    {
      assert WellShaped(CjkPiece(run));
      MorphemesAreTokens(a(run));
      BigramsAreTokens(run);
    }
    CutTokens(Pieces(t), BigramCut());
    CutTokens(Pieces(t), MorphemeCut(a));
  }

  // ----- Recovering a run -----

  /** The first rune of the first pair, then the second rune of every pair. */
  function Rebuild(pairs: seq<Text>): Text
    requires |pairs| > 0 && forall i | 0 <= i < |pairs| :: |pairs[i]| == 2
  {
    [pairs[0][0]] + seq(|pairs|, i requires 0 <= i < |pairs| => pairs[i][1])
  }

  /** A CJK run of n >= 2 runes has n - 1 bigrams and can be put together from them. */
  lemma {:induction false} RunFromBigrams(run: Text)
    requires |run| >= 2
    ensures |Bigrams(run)| == |run| - 1 && forall i | 0 <= i < |Bigrams(run)| :: |Bigrams(run)[i]| == 2
    ensures Rebuild(Bigrams(run)) == run
  {
    var ps := Pairs(run);
    forall i | 0 <= i < |ps|
      ensures |ps[i]| == 2 && ps[i][0] == run[i] && ps[i][1] == run[i + 1]
    {
      assert ps[i] == run[i..i + 2];
    }
  }
}
