/** Links: finding the region an opening belongs to, what a link displays, and what both passes make of
    properly nested markup. */
module WikiLinks {
  import opened Sequences
  import opened Wrappers
  import opened Wikitext

  // ----- Balanced regions -----

  /** The number of tokens up to the first point after k at which everything opened is closed. */
  function FirstBalanced(tokens: seq<Token>, k: nat): (r: Option<nat>)
    requires k <= |tokens|
    ensures r.Some? ==> k < r.value <= |tokens| && Balance(tokens[..r.value]) == 0
    ensures forall j | k < j <= |tokens| && (r.Some? ==> j < r.value) :: Balance(tokens[..j]) != 0
    decreases |tokens| - k
  {
    if k == |tokens| then None
    else if Balance(tokens[..k + 1]) == 0 then Some(k + 1)
    else FirstBalanced(tokens, k + 1)
  }

  lemma {:induction false} SpellConcat(a: seq<Token>, b: seq<Token>, d: Delimiters)
    ensures Spell(a + b, d) == Spell(a, d) + Spell(b, d)
    decreases |b|
  {
    if b == [] {
      assert a + b == a;
    } else {
      var n := |b| - 1;
      var last := SpellOne(b[n], d);
      assert (a + b)[..|a + b| - 1] == a + b[..n] && (a + b)[|a + b| - 1] == b[n];
      SpellConcat(a, b[..n], d);
      calc {
        Spell(a + b, d);
        Spell(a + b[..n], d) + last;
        Spell(a, d) + Spell(b[..n], d) + last;
        Spell(a, d) + (Spell(b[..n], d) + last);
        Spell(a, d) + Spell(b, d);
      }
    }
  }

  lemma {:induction false} BalanceConcat(a: seq<Token>, b: seq<Token>)
    ensures Balance(a + b) == Balance(a) + Balance(b)
    decreases |b|
  {
    if b == [] {
      assert a + b == a;
    } else {
      var n := |b| - 1;
      assert (a + b)[..|a + b| - 1] == a + b[..n] && (a + b)[|a + b| - 1] == b[n];
      BalanceConcat(a, b[..n]);
    }
  }

  lemma {:induction false} SpellWrapped(inner: seq<Token>, d: Delimiters)
    ensures Spell([Open] + inner + [Close], d) == d.opening + Spell(inner, d) + d.closing
    ensures Balance([Open] + inner + [Close]) == Balance(inner)
  {
    assert [Open][..0] == [] && [Close][..0] == [];
    SpellConcat([Open] + inner, [Close], d);
    SpellConcat([Open], inner, d);
    BalanceConcat([Open] + inner, [Close]);
    BalanceConcat([Open], inner);
  }

  /** The length of the link a text begins with: up to the closing that belongs to the first opening. */
  function LinkLength(s: string): (r: Option<nat>)
    requires LINK.opening <= s
    ensures r.Some? ==> 4 <= r.value <= |s|
  {
    var tokens := Tokens(s, LINK, 0);
    var k := FirstBalanced(tokens, 0);
    if k.None? then None
    else
      RegionFits(s, k.value);
      Some(|Spell(tokens[..k.value], LINK)|)
  }

  lemma {:induction false} RegionFits(s: string, k: nat)
    requires LINK.opening <= s && FirstBalanced(Tokens(s, LINK, 0), 0) == Some(k)
    ensures var tokens := Tokens(s, LINK, 0);
            && 2 <= k <= |tokens|
            && tokens[..k] == [Open] + tokens[1..k - 1] + [Close]
            && Spell(tokens[..k], LINK) == "[[" + Spell(tokens[1..k - 1], LINK) + "]]"
            && Spell(tokens[..k], LINK) <= s
            && 4 <= |Spell(tokens[..k], LINK)| <= |s|
  {
    var tokens := Tokens(s, LINK, 0);
    RegionIsWrapped(s, k);
    TokensSpell(s, LINK, 0);
    hide Spell, Tokens, Balance, FirstBalanced;
    var head, inner, tail := tokens[..k], tokens[1..k - 1], tokens[k..];
    assert tokens == head + tail;
    SpellConcat(head, tail, LINK);
    SpellWrapped(inner, LINK);
    var region := Spell(head, LINK);
    assert s == region + Spell(tail, LINK);
    assert |region| == 2 + |Spell(inner, LINK)| + 2;
  }

  lemma {:induction false} RegionIsWrapped(s: string, k: nat)
    requires LINK.opening <= s && FirstBalanced(Tokens(s, LINK, 0), 0) == Some(k)
    ensures var tokens := Tokens(s, LINK, 0);
            2 <= k <= |tokens| && tokens[..k] == [Open] + tokens[1..k - 1] + [Close]
  {
    var tokens := Tokens(s, LINK, 0);
    FirstToken(s, LINK, 0);
    hide Tokens;
    assert tokens[..1] == [Open] && [Open][..0] == [];
    assert Balance(tokens[..1]) == 1;
    PrefixBalance(s, LINK, 0, k - 1);
    assert tokens[..k][..k - 1] == tokens[..k - 1];
    assert tokens[k - 1] == Close;
  }

  /** A scan never closes more than it opened. */
  lemma {:induction false} PrefixBalance(s: string, d: Delimiters, depth: nat, k: nat)
    requires d.opening != "" && k <= |Tokens(s, d, depth)|
    ensures depth + Balance(Tokens(s, d, depth)[..k]) >= 0
    decreases |s|, depth
  {
    if k > 0 {
      FirstToken(s, d, depth);
      var t := NextToken(s, d, depth);
      var rest := s[|SpellOne(t, d)|..];
      PrefixBalance(rest, d, Deeper(t, depth), k - 1);
      assert Tokens(s, d, depth)[..k] == [t] + Tokens(rest, d, Deeper(t, depth))[..k - 1];
      Prepend(t, Tokens(rest, d, Deeper(t, depth))[..k - 1], d);
      assert [t][..0] == [];
    }
  }

  /** Finds the closing that belongs to the opening at `start`: the contents of the shortest balanced region,
      and the position behind it. */
  method MatchNested(s: string, start: nat) returns (r: Option<(string, nat)>)
    requires start <= |s| && LINK.opening <= s[start..]
    ensures var length := LinkLength(s[start..]);
            if length.None? then r.None?
            else r == Some((s[start + 2..start + length.value - 2], start + length.value))
  {
    hide Searching, LinkLength, Tokens, Spell;
    var depth := 0;
    var i := start;
    ghost var u := s[start..];
    ghost var done: seq<Token> := [];
    SearchStart(u);
    while i < |s|
      invariant start <= i <= |s| && depth >= 0
      invariant Searching(u, done, i - start, depth)
      invariant depth == 0 ==> i == start
      decreases |s| - i, depth
    {
      assert s[i..] == u[i - start..];
      ghost var t := NextToken(s[i..], LINK, depth);
      SearchNext(u, done, i - start, depth);
      done := done + [t];
      if LINK.opening <= s[i..] {
        depth := depth + 1;
        i := i + 2;
      } else if LINK.closing <= s[i..] {
        depth := depth - 1;
        i := i + 2;
        if depth == 0 {
          return Some((s[start + 2..i - 2], i));
        }
      } else {
        i := i + 1;
      }
    }
    SearchEnd(u, done, depth);
    return None;
  }

  lemma {:induction false} SearchStart(u: string)
    ensures Searching(u, [], 0, 0)
  {
    ScanStart(u, LINK);
  }

  lemma {:induction false} SearchEnd(u: string, done: seq<Token>, depth: nat)
    requires LINK.opening <= u && Searching(u, done, |u|, depth)
    ensures LinkLength(u).None?
  {
    ScanEnd(u, LINK, done, |u|, depth);
  }

  /** The scan of u has read `done` without coming back to depth zero. */
  ghost predicate Searching(u: string, done: seq<Token>, i: nat, depth: nat) {
    && ScanAt(u, LINK, done, i, depth)
    && done <= Tokens(u, LINK, 0)
    && FirstBalanced(Tokens(u, LINK, 0), 0) == FirstBalanced(Tokens(u, LINK, 0), |done|)
  }

  lemma {:induction false} SearchNext(u: string, done: seq<Token>, i: nat, depth: nat)
    requires LINK.opening <= u && Searching(u, done, i, depth) && i < |u|
    ensures var t := NextToken(u[i..], LINK, depth);
            var deeper, j := Deeper(t, depth), i + |SpellOne(t, LINK)|;
            && deeper >= 0 && j <= |u|
            && (deeper != 0 ==> Searching(u, done + [t], j, deeper))
            && (deeper == 0 ==> LinkLength(u) == Some(j))
  {
    var t := NextToken(u[i..], LINK, depth);
    ScanNext(u, LINK, done, i, depth);
    ExtendPrefix(u, done, t, i, depth);
    if Deeper(t, depth) == 0 {
      RegionEnds(u, done + [t], i + |SpellOne(t, LINK)|);
    }
    hide Tokens, Spell, FirstBalanced;
  }

  lemma {:induction false} ExtendPrefix(u: string, done: seq<Token>, t: Token, i: nat, depth: nat)
    requires ScanAt(u, LINK, done, i, depth) && i < |u| && t == NextToken(u[i..], LINK, depth)
    requires done <= Tokens(u, LINK, 0)
    ensures done + [t] <= Tokens(u, LINK, 0)
    ensures Balance(done + [t]) == Deeper(t, depth)
    ensures Balance(done + [t]) != 0 ==> FirstBalanced(Tokens(u, LINK, 0), |done|) == FirstBalanced(Tokens(u, LINK, 0), |done| + 1)
    ensures Balance(done + [t]) == 0 ==> FirstBalanced(Tokens(u, LINK, 0), |done|) == Some(|done| + 1)
  {
    FirstToken(u[i..], LINK, depth);
    var tokens := Tokens(u, LINK, 0);
    assert tokens[|done|] == t;
    assert tokens[..|done| + 1] == done + [t];
    assert (done + [t])[..|done|] == done;
  }

  lemma {:induction false} RegionEnds(u: string, done: seq<Token>, i: nat)
    requires LINK.opening <= u && i <= |u| && done <= Tokens(u, LINK, 0) && Spell(done, LINK) == u[..i]
    requires FirstBalanced(Tokens(u, LINK, 0), 0) == Some(|done|)
    ensures LinkLength(u) == Some(i)
  {
    assert Tokens(u, LINK, 0)[..|done|] == done;
  }
  /** The region a link covers is the shortest one in which everything opened is closed again: short of its end
      something is always open, and at its end nothing is. */
  lemma {:induction false} LinkIsShortestRegion(s: string)
    requires LINK.opening <= s
    ensures var tokens := Tokens(s, LINK, 0);
            match LinkLength(s)
            case Some(length) =>
              exists k :: 0 < k <= |tokens| && Spell(tokens[..k], LINK) == s[..length] && Balance(tokens[..k]) == 0
                          && forall j | 0 < j < k :: Balance(tokens[..j]) > 0
            case None => forall j | 0 < j <= |tokens| :: Balance(tokens[..j]) > 0
  {
    var tokens := Tokens(s, LINK, 0);
    forall j | 0 < j <= |tokens|
      ensures Balance(tokens[..j]) >= 0
    {
      PrefixBalance(s, LINK, 0, j);
    }
    var k := FirstBalanced(tokens, 0);
    if k.Some? {
      RegionFits(s, k.value);
    }
  }

  // ----- What a link displays -----

  const MEDIA_PREFIXES := [
    "file:", "image:", "media:", "category:",
    "\U{30D5}\U{30A1}\U{30A4}\U{30EB}:", "\U{753B}\U{50CF}:",
    "\U{30E1}\U{30C7}\U{30A3}\U{30A2}:", "\U{30AB}\U{30C6}\U{30B4}\U{30EA}:"]

  function TrimLeft(s: string): string {
    if s != "" && (s[0] == ':' || s[0] == ' ') then TrimLeft(s[1..]) else s
  }

  /** Lower case, as far as the prefixes can tell: the other letters never become one of theirs. */
  function Lower(c: char): char {
    if 'A' <= c <= 'Z' then c - 'A' + 'a'
    else if c == '\U{0130}' then 'i'
    else c
  }

  function LowerAll(s: string): string {
    seq(|s|, i requires 0 <= i < |s| => Lower(s[i]))
  }

  predicate IsMedia(inner: string) {
    exists p | p in MEDIA_PREFIXES :: p <= LowerAll(TrimLeft(inner))
  }

  /** What follows the last pipe; all of it when there is none. */
  function AfterLastPipe(s: string): (r: string)
    ensures '|' !in r && |r| <= |s| && s[|s| - |r|..] == r
    ensures |r| < |s| ==> s[|s| - |r| - 1] == '|'
  {
    if s == "" || s[|s| - 1] == '|' then ""
    else AfterLastPipe(s[..|s| - 1]) + [s[|s| - 1]]
  }

  function LinkText(inner: string): string {
    if IsMedia(inner) then "" else AfterLastPipe(inner)
  }

  /** A character that reads as this lower-case one when case is ignored. */
  predicate Reads(c: char, lower: char) {
    c == lower || ('A' <= c <= 'Z' && lower as int == c as int + 32) || (c == '\U{0130}' && lower == 'i')
  }

  lemma {:induction false} LowerReads(c: char, lower: char)
    requires !('A' <= lower <= 'Z') && lower != '\U{0130}'
    ensures Lower(c) == lower <==> Reads(c, lower)
  {
  }

  lemma {:induction false} TrimSkips(s: string, n: nat)
    requires n <= |s| && (forall i | 0 <= i < n :: s[i] == ':' || s[i] == ' ') && (n < |s| ==> s[n] != ':' && s[n] != ' ')
    ensures TrimLeft(s) == s[n..]
  {
    if n > 0 {
      assert s[1..][n - 1..] == s[n..];
      TrimSkips(s[1..], n - 1);
    }
  }

  lemma {:induction false} PrefixReads(p: string, s: string)
    requires forall c | c in p :: !('A' <= c <= 'Z') && c != '\U{0130}'
    ensures p <= LowerAll(s) <==> |p| <= |s| && forall i | 0 <= i < |p| :: Reads(s[i], p[i])
  {
    if |p| <= |s| {
      forall i | 0 <= i < |p|
        ensures LowerAll(s)[i] == p[i] <==> Reads(s[i], p[i])
      {
        assert p[i] in p;
        LowerReads(s[i], p[i]);
      }
      hide Lower, Reads;
      assert p <= LowerAll(s) <==> forall i | 0 <= i < |p| :: LowerAll(s)[i] == p[i];
    }
  }

  /** The contents from position n on begin with p, whatever the case. */
  predicate Begins(inner: string, n: nat, p: string) {
    n + |p| <= |inner| && forall i | 0 <= i < |p| :: Reads(inner[n + i], p[i])
  }

  lemma {:induction false} BeginsMeans(inner: string, n: nat, p: string)
    requires n <= |inner| && TrimLeft(inner) == inner[n..] && p in MEDIA_PREFIXES
    ensures p <= LowerAll(TrimLeft(inner)) <==> Begins(inner, n, p)
  {
    var rest := inner[n..];
    PrefixesAreLower(p);
    PrefixReads(p, rest);
    hide Reads, LowerAll, TrimLeft;
    assert |p| <= |rest| ==> forall i | 0 <= i < |p| :: rest[i] == inner[n + i];
  }

  /** What a link shows of its contents, of which the first n characters are colons and blanks: nothing when a file,
      image, media or category follows, in any case and either language; else what stands behind the last pipe. */
  lemma {:induction false} LinkShows(inner: string, n: nat)
    requires n <= |inner| && (forall i | 0 <= i < n :: inner[i] == ':' || inner[i] == ' ')
    requires n < |inner| ==> inner[n] != ':' && inner[n] != ' '
    ensures var media := exists p | p in ["file:", "image:", "media:", "category:",
                                          "\U{30D5}\U{30A1}\U{30A4}\U{30EB}:", "\U{753B}\U{50CF}:",
                                          "\U{30E1}\U{30C7}\U{30A3}\U{30A2}:", "\U{30AB}\U{30C6}\U{30B4}\U{30EA}:"] ::
                              Begins(inner, n, p);
            if media then LinkText(inner) == ""
            else exists k :: && 0 <= k <= |inner| && LinkText(inner) == inner[k..] && '|' !in inner[k..]
                             && (k > 0 ==> inner[k - 1] == '|')
  {
    TrimSkips(inner, n);
    forall p | p in MEDIA_PREFIXES
      ensures p <= LowerAll(TrimLeft(inner)) <==> Begins(inner, n, p)
    {
      BeginsMeans(inner, n, p);
    }
    var r := AfterLastPipe(inner);
    assert inner[|inner| - |r|..] == r;
    hide Begins, LowerAll, TrimLeft, AfterLastPipe;
    assert IsMedia(inner) <==> exists p | p in MEDIA_PREFIXES :: Begins(inner, n, p);
  }

  lemma {:induction false} PrefixesAreLower(p: string)
    requires p in MEDIA_PREFIXES
    ensures forall c | c in p :: !('A' <= c <= 'Z') && c != '\U{0130}'
  {
  }

  /** Every link replaced by what it displays, the inner ones first; a link that is never closed ends the text. */
  function Expand(s: string): string
    decreases |s|
  {
    if s == "" then ""
    else if !(LINK.opening <= s) then [s[0]] + Expand(s[1..])
    else
      var length := LinkLength(s);
      if length.None? then ""
      else LinkText(Expand(s[2..length.value - 2])) + Expand(s[length.value..])
  }

  method ExpandLinks(s: string) returns (b: string)
    ensures b == Expand(s)
    decreases |s|
  {
    hide Progress, LinkText, LinkLength, Expand;
    b := "";
    var i := 0;
    ProgressStart(s);
    while i < |s|
      invariant 0 <= i <= |s|
      invariant Progress(s, b, i)
    {
      if !(LINK.opening <= s[i..]) {
        ExpandPlain(s, b, i);
        b := b + [s[i]];
        i := i + 1;
      } else {
        var inner := MatchNested(s, i);
        if inner.None? {
          ExpandUnclosed(s, b, i);
          return;
        }
        ExpandLink(s, b, i, inner.value.1 - i);
        var folded := ExpandLinks(inner.value.0);
        b := b + LinkText(folded);
        i := inner.value.1;
      }
    }
    ProgressEnd(s, b, i);
  }

  /** With the first i characters done, b is what they expand to. */
  ghost predicate Progress(s: string, b: string, i: nat) {
    i <= |s| && Expand(s) == b + Expand(s[i..])
  }

  lemma {:induction false} ProgressStart(s: string)
    ensures Progress(s, "", 0)
  {
    assert s[0..] == s && "" + Expand(s) == Expand(s);
  }

  lemma {:induction false} ProgressEnd(s: string, b: string, i: nat)
    requires Progress(s, b, i) && i == |s|
    ensures b == Expand(s)
  {
    assert s[i..] == "" && b + "" == b;
  }

  lemma {:induction false} ExpandPlain(s: string, b: string, i: nat)
    requires Progress(s, b, i) && i < |s| && !(LINK.opening <= s[i..])
    ensures Progress(s, b + [s[i]], i + 1)
  {
    hide LinkText, LinkLength;
    assert s[i..][1..] == s[i + 1..];
    assert Expand(s[i..]) == [s[i]] + Expand(s[i + 1..]);
    hide Expand;
    Associate(b, [s[i]], Expand(s[i + 1..]));
  }

  lemma {:induction false} ExpandUnclosed(s: string, b: string, i: nat)
    requires Progress(s, b, i) && i < |s| && LINK.opening <= s[i..] && LinkLength(s[i..]).None?
    ensures b == Expand(s)
  {
    hide LinkText, LinkLength;
    assert Expand(s[i..]) == "" && b + "" == b;
  }

  lemma {:induction false} ExpandLink(s: string, b: string, i: nat, length: nat)
    requires Progress(s, b, i) && i < |s| && LINK.opening <= s[i..] && LinkLength(s[i..]) == Some(length)
    ensures Progress(s, b + LinkText(Expand(s[i + 2..i + length - 2])), i + length)
  {
    hide LinkText, LinkLength;
    var rest := s[i..];
    assert rest[2..length - 2] == s[i + 2..i + length - 2];
    assert rest[length..] == s[i + length..];
    var text := LinkText(Expand(s[i + 2..i + length - 2]));
    assert Expand(rest) == text + Expand(s[i + length..]);
    hide Expand;
    Associate(b, text, Expand(s[i + length..]));
  }

  /** Text without an opening is left as it is. */
  lemma {:induction false} NothingToExpand(s: string)
    requires !Contains(s, "[[")
    ensures Expand(s) == s
  {
    if s != "" {
      assert s[0..] == s;
      forall i | 0 <= i <= |s[1..]|
        ensures !("[[" <= s[1..][i..])
      {
        assert s[1..][i..] == s[i + 1..];
      }
      NothingToExpand(s[1..]);
    }
  }

  lemma {:induction false} NeverBalanced(b: string, depth: nat, k: nat)
    requires !Contains(b, "]]") && k <= |Tokens(b, LINK, depth)|
    ensures Balance(Tokens(b, LINK, depth)[..k]) >= 0
    decreases |b|
  {
    if k > 0 {
      assert b[0..] == b;
      FirstToken(b, LINK, depth);
      var t := NextToken(b, LINK, depth);
      var n := |SpellOne(t, LINK)|;
      forall i | 0 <= i <= |b[n..]|
        ensures !("]]" <= b[n..][i..])
      {
        assert b[n..][i..] == b[n + i..];
      }
      NeverBalanced(b[n..], Deeper(t, depth), k - 1);
      var rest := Tokens(b[n..], LINK, Deeper(t, depth));
      assert Tokens(b, LINK, depth)[..k] == [t] + rest[..k - 1];
      Prepend(t, rest[..k - 1], LINK);
      assert [t][..0] == [];
    }
  }

  /** A link that is never closed ends the text: everything from its opening on is dropped. */
  lemma {:induction false} UnclosedLinkEnds(a: string, b: string)
    requires '[' !in a && !Contains(b, "]]")
    ensures Expand(a + ("[[" + b)) == a
  {
    var s := "[[" + b;
    assert s[..2] == "[[" && s[2..] == b;
    var tokens := Tokens(s, LINK, 0);
    FirstToken(s, LINK, 0);
    assert tokens == [Open] + Tokens(b, LINK, 1);
    forall j | 0 < j <= |tokens|
      ensures Balance(tokens[..j]) != 0
    {
      NeverBalanced(b, 1, j - 1);
      assert tokens[..j] == [Open] + Tokens(b, LINK, 1)[..j - 1];
      Prepend(Open, Tokens(b, LINK, 1)[..j - 1], LINK);
      assert [Open][..0] == [];
    }
    hide Tokens, Balance;
    assert LinkLength(s).None?;
    assert Expand(s) == "";
    ExpandText(a, s);
    assert a + "" == a;
  }

  // ----- Properly nested markup -----

  datatype Node = Text(text: string) | Group(children: seq<Node>)

  function Render(f: seq<Node>, d: Delimiters): string {
    if f == [] then ""
    else
      match f[0]
      case Text(t) => t + Render(f[1..], d)
      case Group(children) => d.opening + Render(children, d) + d.closing + Render(f[1..], d)
  }

  /** No text holds a character of a delimiter. */
  predicate Clean(f: seq<Node>, d: Delimiters) {
    f == [] ||
    (&& Clean(f[1..], d)
     && match f[0]
        case Text(t) => forall c | c in t :: c !in d.opening && c !in d.closing
        case Group(children) => Clean(children, d))
  }

  predicate Proper(d: Delimiters) {
    |d.opening| == |d.closing| > 0 && d.opening != d.closing
  }

  function PlainTokens(t: string): (p: seq<Token>)
    ensures |p| == |t| && forall i | 0 <= i < |t| :: p[i] == Plain(t[i])
  {
    seq(|t|, i requires 0 <= i < |t| => Plain(t[i]))
  }

  function RenderTokens(f: seq<Node>): seq<Token> {
    if f == [] then []
    else
      match f[0]
      case Text(t) => PlainTokens(t) + RenderTokens(f[1..])
      case Group(children) => [Open] + RenderTokens(children) + [Close] + RenderTokens(f[1..])
  }

  function TopText(f: seq<Node>): string {
    if f == [] then ""
    else (if f[0].Text? then f[0].text else "") + TopText(f[1..])
  }

  function Display(f: seq<Node>): string {
    if f == [] then ""
    else
      match f[0]
      case Text(t) => t + Display(f[1..])
      case Group(children) => LinkText(Display(children)) + Display(f[1..])
  }

  /** Text between delimiters is read character by character. */
  lemma {:induction false} PlainIsPlain(t: string, rest: string, d: Delimiters, depth: nat)
    requires Proper(d) && forall c | c in t :: c !in d.opening && c !in d.closing
    ensures Tokens(t + rest, d, depth) == PlainTokens(t) + Tokens(rest, d, depth)
    decreases |t|
  {
    if t == "" {
      assert t + rest == rest;
    } else {
      var s := t + rest;
      assert s[0] == t[0] && t[0] in t && d.opening[0] in d.opening && d.closing[0] in d.closing;
      assert s[1..] == t[1..] + rest;
      FirstToken(s, d, depth);
      assert NextToken(s, d, depth) == Plain(t[0]);
      hide Tokens, NextToken;
      PlainIsPlain(t[1..], rest, d, depth);
      assert PlainTokens(t) == [Plain(t[0])] + PlainTokens(t[1..]);
      Associate([Plain(t[0])], PlainTokens(t[1..]), Tokens(rest, d, depth));
    }
  }

  /** Rendered markup is read back as the tree it came from, whatever follows. */
  lemma {:induction false} RenderedTokens(f: seq<Node>, rest: string, d: Delimiters, depth: nat)
    requires Proper(d) && Clean(f, d)
    ensures Tokens(Render(f, d) + rest, d, depth) == RenderTokens(f) + Tokens(rest, d, depth)
    decreases f, 0
  {
    if f == [] {
      assert Render(f, d) + rest == rest;
    } else {
      var tail := Render(f[1..], d) + rest;
      RenderedTokens(f[1..], rest, d, depth);
      RenderFirst(f, rest, d);
      hide Render, Tokens;
      match f[0]
      case Text(t) =>
        PlainIsPlain(t, tail, d, depth);
        Associate(PlainTokens(t), RenderTokens(f[1..]), Tokens(rest, d, depth));
      case Group(children) =>
        GroupTokens(children, tail, d, depth);
        Associate([Open] + RenderTokens(children) + [Close], RenderTokens(f[1..]), Tokens(rest, d, depth));
    }
  }

  lemma {:induction false} RenderFirst(f: seq<Node>, rest: string, d: Delimiters)
    requires f != []
    ensures var tail := Render(f[1..], d) + rest;
            Render(f, d) + rest ==
            match f[0]
            case Text(t) => t + tail
            case Group(children) => d.opening + (Render(children, d) + (d.closing + tail))
  {
    match f[0]
    case Text(t) =>
      Associate(t, Render(f[1..], d), rest);
    case Group(children) =>
      var a, b, c := Render(children, d), d.closing, Render(f[1..], d);
      calc {
        Render(f, d) + rest;
        d.opening + a + b + c + rest;
        { Associate(d.opening + a + b, c, rest); }
        d.opening + a + b + (c + rest);
        { Associate(d.opening + a, b, c + rest); }
        d.opening + a + (b + (c + rest));
        { Associate(d.opening, a, b + (c + rest)); }
        d.opening + (a + (b + (c + rest)));
      }
  }

  lemma {:induction false} GroupTokens(children: seq<Node>, tail: string, d: Delimiters, depth: nat)
    requires Proper(d) && Clean(children, d)
    ensures Tokens(d.opening + (Render(children, d) + (d.closing + tail)), d, depth)
            == [Open] + RenderTokens(children) + [Close] + Tokens(tail, d, depth)
    decreases children, 1
  {
    var inside := Render(children, d) + (d.closing + tail);
    var s := d.opening + inside;
    assert s[..|d.opening|] == d.opening && s[|d.opening|..] == inside;
    RenderedTokens(children, d.closing + tail, d, depth + 1);
    var after := d.closing + tail;
    CloseToken(tail, d, depth + 1);
    hide Tokens, Render, RenderTokens;
    FirstToken(s, d, depth);
    assert NextToken(s, d, depth) == Open;
    var rest := Tokens(tail, d, depth);
    Associate(RenderTokens(children), [Close], rest);
    Associate([Open], RenderTokens(children) + [Close], rest);
    Associate([Open], RenderTokens(children), [Close]);
  }

  lemma {:induction false} CloseToken(tail: string, d: Delimiters, depth: nat)
    requires Proper(d) && depth > 0
    ensures Tokens(d.closing + tail, d, depth) == [Close] + Tokens(tail, d, depth - 1)
  {
    var after := d.closing + tail;
    assert after[..|d.closing|] == d.closing && after[|d.closing|..] == tail;
    assert !(d.opening <= after);
  }

  lemma {:induction false} PlainBalance(t: string)
    ensures Balance(PlainTokens(t)) == 0
  {
    if t != "" {
      var n := |t| - 1;
      PlainBalance(t[..n]);
      assert PlainTokens(t)[..n] == PlainTokens(t[..n]);
    }
  }

  lemma {:induction false} KeptConcat(a: seq<Token>, b: seq<Token>, depth: int)
    ensures Kept(a + b, depth) == Kept(a, depth) + Kept(b, depth + Balance(a))
  {
    if a == [] {
      assert a + b == b;
    } else {
      var t, rest := a[0], a[1..];
      assert (a + b)[1..] == rest + b && (a + b)[0] == t;
      KeptConcat(rest, b, Deeper(t, depth));
      BalanceFront(a, depth);
      var here := if t.Plain? && depth == 0 then [t.c] else "";
      assert Kept(a + b, depth) == here + Kept(rest + b, Deeper(t, depth));
      assert Kept(a, depth) == here + Kept(rest, Deeper(t, depth));
      hide Kept, Balance;
      Associate(here, Kept(rest, Deeper(t, depth)), Kept(b, depth + Balance(a)));
    }
  }

  lemma {:induction false} BalanceFront(a: seq<Token>, depth: int)
    requires a != []
    ensures depth + Balance(a) == Deeper(a[0], depth) + Balance(a[1..])
  {
    assert a == [a[0]] + a[1..] && [a[0]][..0] == [];
    BalanceConcat([a[0]], a[1..]);
  }

  lemma {:induction false} KeptPlain(t: string, depth: nat)
    ensures Kept(PlainTokens(t), depth) == if depth == 0 then t else ""
  {
    if t != "" {
      KeptPlain(t[1..], depth);
      assert PlainTokens(t)[1..] == PlainTokens(t[1..]);
    }
  }

  lemma {:induction false} RenderedBalance(f: seq<Node>)
    ensures Balance(RenderTokens(f)) == 0
  {
    if f != [] {
      RenderedBalance(f[1..]);
      match f[0]
      case Text(t) =>
        PlainBalance(t);
        BalanceConcat(PlainTokens(t), RenderTokens(f[1..]));
      case Group(children) =>
        RenderedBalance(children);
        SpellWrapped(RenderTokens(children), LINK);
        BalanceConcat([Open] + RenderTokens(children) + [Close], RenderTokens(f[1..]));
    }
  }

  lemma {:induction false} KeptRendered(f: seq<Node>, depth: nat)
    ensures Kept(RenderTokens(f), depth) == if depth == 0 then TopText(f) else ""
    decreases f, 0
  {
    if f == [] {
      assert RenderTokens(f) == [];
    } else {
      KeptRendered(f[1..], depth);
      hide Kept, Balance;
      match f[0]
      case Text(t) =>
        PlainBalance(t);
        KeptPlain(t, depth);
        KeptConcat(PlainTokens(t), RenderTokens(f[1..]), depth);
      case Group(children) => KeptGroup(children, f[1..], depth);
    }
  }

  lemma {:induction false} KeptDelimiter(t: Token, depth: int)
    requires !t.Plain?
    ensures Kept([t], depth) == "" && depth + Balance([t]) == Deeper(t, depth)
  {
    assert [t][..0] == [] && [t][1..] == [];
  }

  lemma {:induction false} KeptGroup(children: seq<Node>, rest: seq<Node>, depth: nat)
    ensures Kept([Open] + RenderTokens(children) + [Close] + RenderTokens(rest), depth) == Kept(RenderTokens(rest), depth)
    decreases children, 1
  {
    KeptRendered(children, depth + 1);
    RenderedBalance(children);
    var inside := RenderTokens(children);
    SpellWrapped(inside, LINK);
    KeptWrapped(inside, depth);
    hide Kept, Balance, RenderTokens;
    KeptConcat([Open] + inside + [Close], RenderTokens(rest), depth);
  }

  lemma {:induction false} KeptWrapped(inside: seq<Token>, depth: int)
    requires Balance(inside) == 0 && Kept(inside, depth + 1) == ""
    ensures Kept([Open] + inside + [Close], depth) == ""
  {
    KeptDelimiter(Open, depth);
    KeptDelimiter(Close, depth + 1);
    hide Kept, Balance;
    BalanceConcat([Open], inside);
    KeptConcat([Open] + inside, [Close], depth);
    KeptConcat([Open], inside, depth);
  }

  lemma {:induction false} RenderedAlone(f: seq<Node>, d: Delimiters)
    requires Proper(d) && Clean(f, d)
    ensures Tokens(Render(f, d), d, 0) == RenderTokens(f)
  {
    RenderedTokens(f, "", d, 0);
    assert Render(f, d) + "" == Render(f, d);
    assert Tokens("", d, 0) == [] && RenderTokens(f) + [] == RenderTokens(f);
  }

  /** On properly nested markup, stripping leaves exactly the text that is in no group. */
  lemma {:induction false} StripRendered(f: seq<Node>, d: Delimiters)
    requires Proper(d) && Clean(f, d)
    ensures Outside(Tokens(Render(f, d), d, 0)) == TopText(f)
  {
    RenderedAlone(f, d);
    KeptRendered(f, 0);
    StripIsOutside(Render(f, d), d);
  }

  // ----- Expanding properly nested links -----

  lemma {:induction false} RegionOf(body: seq<Token>, rest: seq<Token>)
    requires Balance(body) == 0 && forall j | 0 <= j <= |body| :: Balance(body[..j]) >= 0
    ensures FirstBalanced([Open] + body + [Close] + rest, 0) == Some(|body| + 2)
  {
    var tokens := [Open] + body + [Close] + rest;
    var n := |body| + 2;
    assert tokens[..n] == [Open] + body + [Close];
    SpellWrapped(body, LINK);
    forall j | 0 < j < n
      ensures Balance(tokens[..j]) > 0
    {
      assert tokens[..j] == [Open] + body[..j - 1];
      BalanceConcat([Open], body[..j - 1]);
      assert [Open][..0] == [];
    }
  }

  lemma {:induction false} LeadingLink(children: seq<Node>, tail: string)
    requires Clean(children, LINK)
    ensures var body := Render(children, LINK);
            var s := "[[" + (body + ("]]" + tail));
            && LINK.opening <= s && LinkLength(s) == Some(|body| + 4)
            && s[2..|body| + 2] == body && s[|body| + 4..] == tail
  {
    var body := Render(children, LINK);
    var s := "[[" + (body + ("]]" + tail));
    var inside := RenderTokens(children);
    RenderedAlone(children, LINK);
    TokensSpell(body, LINK, 0);
    RenderedBalance(children);
    forall j | 0 <= j <= |inside|
      ensures Balance(inside[..j]) >= 0
    {
      PrefixBalance(body, LINK, 0, j);
    }
    GroupTokens(children, tail, LINK, 0);
    hide Render, RenderTokens, Balance, Tokens, Spell, FirstBalanced;
    WrappedLength(body, inside, tail);
  }

  lemma {:induction false} WrappedLength(body: string, inside: seq<Token>, tail: string)
    requires Balance(inside) == 0 && (forall j | 0 <= j <= |inside| :: Balance(inside[..j]) >= 0)
    requires Spell(inside, LINK) == body
    requires Tokens("[[" + (body + ("]]" + tail)), LINK, 0) == [Open] + inside + [Close] + Tokens(tail, LINK, 0)
    ensures var s := "[[" + (body + ("]]" + tail));
            && LINK.opening <= s && LinkLength(s) == Some(|body| + 4)
            && s[2..|body| + 2] == body && s[|body| + 4..] == tail
  {
    var s := "[[" + (body + ("]]" + tail));
    var rest := Tokens(tail, LINK, 0);
    var tokens := [Open] + inside + [Close] + rest;
    RegionOf(inside, rest);
    assert tokens[..|inside| + 2] == [Open] + inside + [Close];
    SpellWrapped(inside, LINK);
    hide Tokens, Spell, FirstBalanced, Balance;
    assert s[..2] == "[[";
    assert |"[[" + body + "]]"| == |body| + 4;
  }

  lemma {:induction false} ExpandText(t: string, rest: string)
    requires '[' !in t
    ensures Expand(t + rest) == t + Expand(rest)
  {
    if t == "" {
      assert t + rest == rest;
    } else {
      assert t[0] in t;
      ExpandText(t[1..], rest);
      ExpandChar(t[0], t[1..] + rest);
      hide Expand;
      assert t == [t[0]] + t[1..];
      Associate([t[0]], t[1..], rest);
      Associate([t[0]], t[1..], Expand(rest));
    }
  }

  lemma {:induction false} ExpandChar(c: char, rest: string)
    requires c != '['
    ensures Expand([c] + rest) == [c] + Expand(rest)
  {
    var s := [c] + rest;
    assert s[0] == c && s[1..] == rest;
    assert !(LINK.opening <= s);
  }

  /** On properly nested links, expanding shows each link as what its displayed contents display. */
  lemma {:induction false} ExpandRendered(f: seq<Node>, rest: string)
    requires Clean(f, LINK)
    ensures Expand(Render(f, LINK) + rest) == Display(f) + Expand(rest)
    decreases f
  {
    if f == [] {
      assert Render(f, LINK) + rest == rest;
    } else {
      var tail := Render(f[1..], LINK) + rest;
      ExpandRendered(f[1..], rest);
      RenderFirst(f, rest, LINK);
      match f[0]
      case Text(t) =>
        hide Expand;
        ExpandText(t, tail);
        Associate(t, Display(f[1..]), Expand(rest));
      case Group(children) =>
        ExpandRendered(children, "");
        ExpandGroup(children, tail);
        hide Expand, LinkText, Render, Clean;
        Associate(LinkText(Display(children)), Display(f[1..]), Expand(rest));
    }
  }

  lemma {:induction false} ExpandGroup(children: seq<Node>, tail: string)
    requires Clean(children, LINK)
    requires Expand(Render(children, LINK) + "") == Display(children) + Expand("")
    ensures Expand("[[" + (Render(children, LINK) + ("]]" + tail))) == LinkText(Display(children)) + Expand(tail)
  {
    var body := Render(children, LINK);
    assert body + "" == body && Expand("") == "" && Display(children) + "" == Display(children);
    hide Expand, LinkText, Display;
    LeadingLink(children, tail);
    UnfoldLink("[[" + (body + ("]]" + tail)), body, tail);
  }

  lemma {:induction false} UnfoldLink(s: string, body: string, tail: string)
    requires LINK.opening <= s && LinkLength(s) == Some(|body| + 4)
    requires s[2..|body| + 2] == body && s[|body| + 4..] == tail
    ensures Expand(s) == LinkText(Expand(body)) + Expand(tail)
  {
    hide LinkText, LinkLength;
  }
}
