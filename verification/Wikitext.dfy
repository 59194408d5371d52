/** Removing nested markup from an article, and replacing links by what they display.

    Text is a sequence of characters; the delimiters are plain ASCII, so scanning bytes or characters
    comes to the same.
 */
module Wikitext {
  import opened Sequences
  import opened Wrappers

  datatype Delimiters = Delimiters(opening: string, closing: string)

  const TEMPLATE := Delimiters("{{", "}}")
  const TABLE := Delimiters("{|", "|}")
  const LINK := Delimiters("[[", "]]")

  datatype Token = Open | Close | Plain(c: char)

  /** The text as the scanner reads it from depth `depth` on: an opening wins over a closing, and a closing
      counts only inside. */
  function Tokens(s: string, d: Delimiters, depth: nat): seq<Token>
    requires d.opening != ""
    decreases |s|, depth
  {
    if s == "" then []
    else if d.opening <= s then [Open] + Tokens(s[|d.opening|..], d, depth + 1)
    else if depth > 0 && d.closing <= s then [Close] + Tokens(s[|d.closing|..], d, depth - 1)
    else [Plain(s[0])] + Tokens(s[1..], d, depth)
  }

  function SpellOne(t: Token, d: Delimiters): string {
    match t
    case Open => d.opening
    case Close => d.closing
    case Plain(c) => [c]
  }

  function Spell(tokens: seq<Token>, d: Delimiters): string {
    if tokens == [] then "" else Spell(tokens[..|tokens| - 1], d) + SpellOne(tokens[|tokens| - 1], d)
  }

  function Deeper(t: Token, depth: int): int {
    match t
    case Open => depth + 1
    case Close => depth - 1
    case Plain(_) => depth
  }

  function Balance(tokens: seq<Token>): int {
    if tokens == [] then 0
    else
      Deeper(tokens[|tokens| - 1], Balance(tokens[..|tokens| - 1]))
  }

  /** The characters with as many closings as openings before them. */
  function Outside(tokens: seq<Token>): string {
    if tokens == [] then ""
    else
      var n := |tokens| - 1;
      Outside(tokens[..n]) + if tokens[n].Plain? && Balance(tokens[..n]) == 0 then [tokens[n].c] else ""
  }

  /** The scan has read `done` and stands at position i. */
  ghost predicate ScanAt(s: string, d: Delimiters, done: seq<Token>, i: nat, depth: nat)
    requires d.opening != ""
  {
    && i <= |s|
    && Tokens(s, d, 0) == done + Tokens(s[i..], d, depth)
    && depth == Balance(done)
    && Spell(done, d) == s[..i]
  }

  function NextToken(rest: string, d: Delimiters, depth: nat): Token
    requires d.opening != "" && rest != ""
  {
    if d.opening <= rest then Open else if depth > 0 && d.closing <= rest then Close else Plain(rest[0])
  }

  /** Strips every nested region; an opening that is never closed takes the rest of the text with it. */
  method StripNested(s: string, d: Delimiters) returns (b: string)
    requires d.opening != ""
    ensures b == Outside(Tokens(s, d, 0))
  {
    b := "";
    var depth := 0;
    var i := 0;
    ghost var done: seq<Token> := [];
    ScanStart(s, d);
    hide *;
    while i < |s|
      invariant i <= |s| && depth >= 0
      invariant ScanAt(s, d, done, i, depth)
      invariant b == Outside(done)
      decreases |s| - i, depth
    {
      ghost var t := NextToken(s[i..], d, depth);
      TokenIs(s[i..], d, depth);
      ScanNext(s, d, done, i, depth);
      done := done + [t];
      if d.opening <= s[i..] {
        depth := depth + 1;
        i := i + |d.opening|;
      } else if depth > 0 && d.closing <= s[i..] {
        depth := depth - 1;
        i := i + |d.closing|;
      } else {
        if depth == 0 {
          b := b + [s[i]];
        }
        i := i + 1;
      }
    }
    ScanEnd(s, d, done, i, depth);
  }

  /** How far the scan moves, and where it stands then. */
  lemma {:induction false} TokenIs(rest: string, d: Delimiters, depth: nat)
    requires d.opening != "" && rest != ""
    ensures var t := NextToken(rest, d, depth);
            if d.opening <= rest then t == Open && |SpellOne(t, d)| == |d.opening| && Deeper(t, depth) == depth + 1
            else if depth > 0 && d.closing <= rest then t == Close && |SpellOne(t, d)| == |d.closing| && Deeper(t, depth) == depth - 1
            else t == Plain(rest[0]) && |SpellOne(t, d)| == 1 && Deeper(t, depth) == depth
  {
  }

  lemma {:induction false} ScanStart(s: string, d: Delimiters)
    requires d.opening != ""
    ensures ScanAt(s, d, [], 0, 0) && Outside([]) == ""
  {
    assert s[0..] == s && [] + Tokens(s, d, 0) == Tokens(s, d, 0);
  }

  lemma {:induction false} ScanEnd(s: string, d: Delimiters, done: seq<Token>, i: nat, depth: nat)
    requires d.opening != "" && ScanAt(s, d, done, i, depth) && i == |s|
    ensures done == Tokens(s, d, 0)
  {
    assert s[i..] == "" && done + [] == done;
  }

  /** One step of the scan. */
  lemma {:induction false} ScanNext(s: string, d: Delimiters, done: seq<Token>, i: nat, depth: nat)
    requires d.opening != "" && ScanAt(s, d, done, i, depth) && i < |s|
    ensures var t := NextToken(s[i..], d, depth);
            var deeper := Deeper(t, depth);
            && deeper >= 0 && i + |SpellOne(t, d)| <= |s|
            && ScanAt(s, d, done + [t], i + |SpellOne(t, d)|, deeper)
            && Outside(done + [t]) == Outside(done) + if t.Plain? && depth == 0 then [t.c] else ""
  {
    var rest := s[i..];
    var t := NextToken(rest, d, depth);
    var j := i + |SpellOne(t, d)|;
    FirstToken(rest, d, depth);
    AppendToken(done, t, d);
    hide Tokens, Spell, Balance, Outside, NextToken, SpellOne, Deeper;
    Advance(s, i, SpellOne(t, d));
    Associate(done, [t], Tokens(s[j..], d, Deeper(t, depth)));
  }

  lemma {:induction false} Advance(s: string, i: nat, piece: string)
    requires i <= |s| && |piece| <= |s[i..]| && s[i..] == piece + s[i..][|piece|..]
    ensures i + |piece| <= |s| && s[..i + |piece|] == s[..i] + piece && s[i..][|piece|..] == s[i + |piece|..]
  {
  }

  lemma {:induction false} AppendToken(done: seq<Token>, t: Token, d: Delimiters)
    ensures Spell(done + [t], d) == Spell(done, d) + SpellOne(t, d)
    ensures Balance(done + [t]) == Deeper(t, Balance(done))
    ensures Outside(done + [t]) == Outside(done) + if t.Plain? && Balance(done) == 0 then [t.c] else ""
  {
    assert (done + [t])[..|done|] == done;
  }

  lemma {:induction false} FirstToken(rest: string, d: Delimiters, depth: nat)
    requires d.opening != "" && rest != ""
    ensures var t := NextToken(rest, d, depth);
            && |SpellOne(t, d)| <= |rest| && Deeper(t, depth) >= 0
            && Tokens(rest, d, depth) == [t] + Tokens(rest[|SpellOne(t, d)|..], d, Deeper(t, depth))
            && rest == SpellOne(t, d) + rest[|SpellOne(t, d)|..]
  {
  }

  // ----- The tokens are the text -----

  lemma {:induction false} Prepend(t: Token, rest: seq<Token>, d: Delimiters)
    ensures Spell([t] + rest, d) == SpellOne(t, d) + Spell(rest, d)
    ensures Balance([t] + rest) == Balance([t]) + Balance(rest)
  {
    if rest == [] {
      assert [t] + rest == [t] && [t][..0] == [];
    } else {
      var front, last := rest[..|rest| - 1], rest[|rest| - 1];
      assert rest == front + [last];
      Associate([t], front, [last]);
      hide Spell, Balance, SpellOne;
      Prepend(t, front, d);
      AppendToken(front, last, d);
      AppendToken([t] + front, last, d);
      Associate(SpellOne(t, d), Spell(front, d), SpellOne(last, d));
    }
  }

  /** Nothing is lost in reading: the tokens spell the text. */
  lemma {:induction false} TokensSpell(s: string, d: Delimiters, depth: nat)
    requires d.opening != ""
    ensures Spell(Tokens(s, d, depth), d) == s
    decreases |s|, depth
  {
    if s != "" {
      FirstToken(s, d, depth);
      var t := NextToken(s, d, depth);
      var rest := s[|SpellOne(t, d)|..];
      TokensSpell(rest, d, Deeper(t, depth));
      Prepend(t, Tokens(rest, d, Deeper(t, depth)), d);
      hide Tokens, Spell;
    }
  }

  // ----- What is left -----

  /** Outside, read from the front. */
  function Kept(tokens: seq<Token>, depth: int): string {
    if tokens == [] then ""
    else
      (if tokens[0].Plain? && depth == 0 then [tokens[0].c] else "") + Kept(tokens[1..], Deeper(tokens[0], depth))
  }

  function Strip(s: string, d: Delimiters, depth: nat): string
    requires d.opening != ""
  {
    Kept(Tokens(s, d, depth), depth)
  }

  lemma {:induction false} KeptIsOutside(a: seq<Token>, b: seq<Token>)
    ensures Outside(a + b) == Outside(a) + Kept(b, Balance(a))
    decreases |b|
  {
    if b == [] {
      assert a + b == a;
    } else {
      var c := a + [b[0]];
      assert a + b == c + b[1..] && c[..|a|] == a;
      KeptIsOutside(c, b[1..]);
    }
  }

  lemma {:induction false} StripIsOutside(s: string, d: Delimiters)
    requires d.opening != ""
    ensures Outside(Tokens(s, d, 0)) == Strip(s, d, 0)
  {
    KeptIsOutside([], Tokens(s, d, 0));
    assert [] + Tokens(s, d, 0) == Tokens(s, d, 0);
  }

  lemma {:induction false} StripStep(s: string, d: Delimiters, depth: nat)
    requires d.opening != "" && s != ""
    ensures d.opening <= s ==> Strip(s, d, depth) == Strip(s[|d.opening|..], d, depth + 1)
    ensures !(d.opening <= s) && depth > 0 && d.closing <= s ==> Strip(s, d, depth) == Strip(s[|d.closing|..], d, depth - 1)
    ensures !(d.opening <= s) && depth > 0 && !(d.closing <= s) ==> Strip(s, d, depth) == Strip(s[1..], d, depth)
    ensures !(d.opening <= s) && depth == 0 ==> Strip(s, d, depth) == [s[0]] + Strip(s[1..], d, depth)
  {
    FirstToken(s, d, depth);
    var t := NextToken(s, d, depth);
    var rest := Tokens(s[|SpellOne(t, d)|..], d, Deeper(t, depth));
    assert ([t] + rest)[1..] == rest;
  }

  ghost predicate Contains(s: string, p: string) {
    exists i :: 0 <= i <= |s| && p <= s[i..]
  }

  /** Text without an opening is left as it is, stray closings included. */
  lemma {:induction false} NothingToStrip(s: string, d: Delimiters)
    requires d.opening != "" && !Contains(s, d.opening)
    ensures Strip(s, d, 0) == s
  {
    if s != "" {
      assert s[0..] == s;
      forall i | 0 <= i <= |s[1..]|
        ensures !(d.opening <= s[1..][i..])
      {
        assert s[1..][i..] == s[i + 1..];
      }
      NothingToStrip(s[1..], d);
      StripStep(s, d, 0);
    }
  }

  lemma {:induction false} NothingCloses(s: string, d: Delimiters, depth: nat)
    requires d.opening != "" && depth > 0 && !Contains(s, d.closing)
    ensures Strip(s, d, depth) == ""
    decreases |s|
  {
    if s != "" {
      assert s[0..] == s;
      var n := if d.opening <= s then |d.opening| else 1;
      forall i | 0 <= i <= |s[n..]|
        ensures !(d.closing <= s[n..][i..])
      {
        assert s[n..][i..] == s[n + i..];
      }
      StripStep(s, d, depth);
      NothingCloses(s[n..], d, if d.opening <= s then depth + 1 else depth);
    }
  }

  /** The first opening is at position n. */
  ghost predicate FirstOpening(s: string, n: nat, opening: string) {
    n <= |s| && opening <= s[n..] && forall i | 0 <= i < n :: !(opening <= s[i..])
  }

  lemma {:induction false} OpeningInTail(s: string, n: nat, opening: string)
    requires n > 0 && FirstOpening(s, n, opening)
    ensures FirstOpening(s[1..], n - 1, opening) && !(opening <= s)
  {
    assert s[0..] == s;
    TailTail(s, n);
    forall i | 0 <= i < n - 1
      ensures !(opening <= s[1..][i..])
    {
      TailTail(s, i + 1);
    }
  }

  /** An opening that is never closed takes the rest of the text with it. */
  lemma {:induction false} UnclosedTakesTheRest(s: string, n: nat, d: Delimiters)
    requires d.opening != "" && FirstOpening(s, n, d.opening) && !Contains(s[n + |d.opening|..], d.closing)
    ensures Strip(s, d, 0) == s[..n]
  {
    if n == 0 {
      assert s[0..] == s;
      DropsRest(s, d);
    } else {
      OpeningInTail(s, n, d.opening);
      TailTail(s, n);
      TailTail(s, n + |d.opening|);
      hide *;
      KeepsFirst(s, d);
      UnclosedTakesTheRest(s[1..], n - 1, d);
    }
  }

  lemma {:induction false} TailTail(s: string, n: nat)
    requires 1 <= n <= |s|
    ensures s[1..][n - 1..] == s[n..] && s[..n] == [s[0]] + s[1..][..n - 1]
  {
  }

  lemma {:induction false} DropsRest(s: string, d: Delimiters)
    requires d.opening != "" && d.opening <= s && !Contains(s[|d.opening|..], d.closing)
    ensures Strip(s, d, 0) == ""
  {
    StripStep(s, d, 0);
    hide Strip, Contains;
    NothingCloses(s[|d.opening|..], d, 1);
  }

  lemma {:induction false} KeepsFirst(s: string, d: Delimiters)
    requires d.opening != "" && s != "" && !(d.opening <= s)
    ensures Strip(s, d, 0) == [s[0]] + Strip(s[1..], d, 0)
  {
    StripStep(s, d, 0);
  }

  /** After an opening of two equal characters is stripped, no two of them stand next to each other. */
  lemma {:induction false} NoPairLeft(s: string, x: char, closing: string, depth: nat)
    ensures !Contains(Strip(s, Delimiters([x, x], closing), depth), [x, x])
    decreases |s|, depth
  {
    var d := Delimiters([x, x], closing);
    var out := Strip(s, d, depth);
    if s == "" {
    } else {
      StripStep(s, d, depth);
      if d.opening <= s {
        NoPairLeft(s[2..], x, closing, depth + 1);
      } else if depth > 0 && closing <= s {
        NoPairLeft(s[|closing|..], x, closing, depth - 1);
      } else {
        NoPairLeft(s[1..], x, closing, depth);
        if depth == 0 {
          OneMoreKept(s, x, closing);
        }
      }
    }
  }

  lemma {:induction false} OneMoreKept(s: string, x: char, closing: string)
    requires s != "" && !([x, x] <= s)
    requires !Contains(Strip(s[1..], Delimiters([x, x], closing), 0), [x, x])
    ensures !Contains([s[0]] + Strip(s[1..], Delimiters([x, x], closing), 0), [x, x])
  {
    var d := Delimiters([x, x], closing);
    var rest := Strip(s[1..], d, 0);
    var out := [s[0]] + rest;
    if s[0] == x && |s| > 1 {
      StripStep(s[1..], d, 0);
      assert s[1] != x;
    }
    forall i | 0 <= i <= |out|
      ensures !([x, x] <= out[i..])
    {
      if i > 0 {
        assert out[i..] == rest[i - 1..];
      }
    }
  }

  /** Stripping templates leaves no "{{", and doing it twice is doing it once. */
  lemma {:induction false} TemplatesAreGone(s: string)
    ensures !Contains(Strip(s, TEMPLATE, 0), "{{")
    ensures Strip(Strip(s, TEMPLATE, 0), TEMPLATE, 0) == Strip(s, TEMPLATE, 0)
  {
    assert TEMPLATE == Delimiters(['{', '{'], "}}");
    NoPairLeft(s, '{', "}}", 0);
    NothingToStrip(Strip(s, TEMPLATE, 0), TEMPLATE);
  }

  /** When opening and closing are the same, everything from the first opening on is dropped. */
  lemma {:induction false} NeverCloses(s: string, o: string, depth: nat)
    requires o != "" && depth > 0
    ensures Strip(s, Delimiters(o, o), depth) == ""
    decreases |s|
  {
    if s != "" {
      StripStep(s, Delimiters(o, o), depth);
      if o <= s {
        NeverCloses(s[|o|..], o, depth + 1);
      } else {
        NeverCloses(s[1..], o, depth);
      }
    }
  }

  lemma {:induction false} SameDelimiters(s: string, o: string)
    requires |o| == 2
    ensures var out := Strip(s, Delimiters(o, o), 0);
            out <= s && !Contains(out, o)
  {
    var d := Delimiters(o, o);
    if s != "" {
      StripStep(s, d, 0);
      if o <= s {
        NeverCloses(s[2..], o, 1);
      } else {
        SameDelimiters(s[1..], o);
        var rest := Strip(s[1..], d, 0);
        var out := [s[0]] + rest;
        forall i | 0 <= i <= |out|
          ensures !(o <= out[i..])
        {
          if i > 0 {
            assert out[i..] == rest[i - 1..];
          }
        }
      }
    }
  }

  /** A text that strips to an opening, when the two characters of the opening differ. */
  lemma {:induction false} SplitOpening(o: string, c: string)
    requires |o| == 2 && |c| == 2 && o[0] != o[1] && c != o
    ensures Strip([o[0]] + o + c + [o[1]], Delimiters(o, c), 0) == o
  {
    var d := Delimiters(o, c);
    var s := [o[0]] + o + c + [o[1]];
    assert s[0] == o[0] && s[1] == o[0];
    StripStep(s, d, 0);
    var s1 := o + c + [o[1]];
    assert s[1..] == s1 && s1[..2] == o;
    StripStep(s1, d, 0);
    var s2 := c + [o[1]];
    assert s1[2..] == s2 && s2[..2] == c;
    StripStep(s2, d, 1);
    assert s2[2..] == [o[1]];
    StripStep([o[1]], d, 0);
    assert [o[1]][1..] == "";
    assert o == [o[0]] + [o[1]];
  }

  /** For which two-character delimiters the result never contains an opening: the characters of the opening
      are equal, or it is also the closing.  Templates pass, tables do not. */
  lemma {:induction false} OpeningsGoneExactly(o: string, c: string)
    requires |o| == 2 && |c| == 2
    ensures (forall s: string :: !Contains(Strip(s, Delimiters(o, c), 0), o)) <==> (o[0] == o[1] || c == o)
  {
    if o[0] == o[1] {
      forall s: string
        ensures !Contains(Strip(s, Delimiters(o, c), 0), o)
      {
        assert o == [o[0], o[0]];
        NoPairLeft(s, o[0], c, 0);
      }
    } else if c == o {
      forall s: string
        ensures !Contains(Strip(s, Delimiters(o, c), 0), o)
      {
        SameDelimiters(s, o);
      }
    } else {
      SplitOpening(o, c);
      assert o <= o[0..];
      assert Contains(Strip([o[0]] + o + c + [o[1]], Delimiters(o, c), 0), o);
    }
  }

  /** Stripping tables once is not always enough. */
  lemma {:induction false} TablesCanRemain()
    ensures Strip("{{||}|", TABLE, 0) == "{|" && Strip("{|", TABLE, 0) == ""
  {
    SplitOpening("{|", "|}");
    assert "{{||}|" == ['{'] + "{|" + "|}" + ['|'];
    StripStep("{|", TABLE, 0);
    assert "{|"[2..] == "";
  }
}
