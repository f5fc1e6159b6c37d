/**
 The conversion of markdown links to Slack's format: a scanner over runes that
 leaves code alone. It is proved against a tokenization that loses nothing.
 */
module SlackLinks {
  import opened Wrappers

  type Runes = seq<char>

  const FENCE: Runes := "```"
  const HTTP: Runes := "http://"
  const HTTPS: Runes := "https://"

  // ----- links -----

  /** From start on the text reads [text](url), and it is a link to be converted. */
  predicate LinkAt(r: Runes, start: nat, text: Runes, url: Runes) {
    var source := LinkSource(text, url);
    && start <= |r| && source <= r[start..]
    && ']' !in text && '\n' !in text
    && ')' !in url && '\n' !in url
    && IsHttp(url)
  }

  predicate IsHttp(url: Runes) {
    HTTP <= url || HTTPS <= url
  }

  function LinkSource(text: Runes, url: Runes): Runes {
    "[" + text + "](" + url + ")"
  }

  /** The decomposition of a link is unique. */
  lemma LinkUnique(r: Runes, start: nat, t1: Runes, u1: Runes, t2: Runes, u2: Runes)
    requires LinkAt(r, start, t1, u1) && LinkAt(r, start, t2, u2)
    ensures t1 == t2 && u1 == u2
  {
    LinkParts(r, start, t1, u1);
    LinkParts(r, start, t2, u2);
    FirstStop(r, start + 1, start + 1 + |t1|, start + 1 + |t2|, ']');
    FirstStop(r, start + 3 + |t1|, start + 3 + |t1| + |u1|, start + 3 + |t1| + |u2|, ')');
  }

  /** Where the parts of a link lie. */
  lemma LinkParts(r: Runes, start: nat, text: Runes, url: Runes)
    requires LinkAt(r, start, text, url)
    ensures start + |text| + |url| + 4 <= |r|
    ensures r[start] == '[' && r[start + 1..start + 1 + |text|] == text
    ensures r[start + 1 + |text|] == ']' && r[start + 2 + |text|] == '('
    ensures r[start + 3 + |text|..start + 3 + |text| + |url|] == url
    ensures r[start + 3 + |text| + |url|] == ')' && IsHttp(url)
    ensures forall j | start + 1 <= j < start + 1 + |text| :: r[j] != ']' && r[j] != '\n'
    ensures forall j | start + 3 + |text| <= j < start + 3 + |text| + |url| :: r[j] != ')' && r[j] != '\n'
  {
    var s := LinkSource(text, url);
    var rest := r[start..];
    assert forall j | 0 <= j < |s| :: r[start + j] == rest[j] == s[j];
    assert s[1..1 + |text|] == text;
    assert s[3 + |text|..3 + |text| + |url|] == url;
    assert r[start + 1..start + 1 + |text|] == s[1..1 + |text|];
    assert r[start + 3 + |text|..start + 3 + |text| + |url|] == s[3 + |text|..3 + |text| + |url|];
    forall j | start + 1 <= j < start + 1 + |text| ensures r[j] != ']' && r[j] != '\n' {
      assert r[j] == text[j - start - 1];
    }
    forall j | start + 3 + |text| <= j < start + 3 + |text| + |url| ensures r[j] != ')' && r[j] != '\n' {
      assert r[j] == url[j - start - 3 - |text|];
    }
  }

  lemma FirstStop(r: Runes, from: nat, a: nat, b: nat, stop: char)
    requires from <= a < |r| && from <= b < |r| && r[a] == stop && r[b] == stop
    requires forall j | from <= j < a :: r[j] != stop
    requires forall j | from <= j < b :: r[j] != stop
    ensures a == b
  {
  }

  /** What lies between these stops is a link. */
  lemma LinkFromParts(r: Runes, start: nat, mid: nat, end: nat)
    requires start < mid && mid + 2 <= end < |r|
    requires r[start] == '[' && r[mid] == ']' && r[mid + 1] == '(' && r[end] == ')'
    requires forall j | start < j < mid :: r[j] != ']' && r[j] != '\n'
    requires forall j | mid + 2 <= j < end :: r[j] != ')' && r[j] != '\n'
    requires IsHttp(r[mid + 2..end])
    ensures LinkAt(r, start, r[start + 1..mid], r[mid + 2..end])
    ensures |LinkSource(r[start + 1..mid], r[mid + 2..end])| == end + 1 - start
  {
    var text, url := r[start + 1..mid], r[mid + 2..end];
    assert LinkSource(text, url) == r[start..end + 1];
  }

  datatype Link = Link(url: Runes, text: Runes, end: nat)

  /**
   Succeeds if and only if a link starts here, and then returns that link and the
   position after it.
   */
  method ParseLink(r: Runes, start: nat) returns (link: Option<Link>)
    ensures link.Some? ==>
              && LinkAt(r, start, link.value.text, link.value.url)
              && link.value.end == start + |LinkSource(link.value.text, link.value.url)|
    ensures link.None? ==> forall text, url :: !LinkAt(r, start, text, url)
  {
    hide LinkAt, LinkSource, IsHttp;
    var n := |r|;
    if start >= n || r[start] != '[' {
      NoLinkWithoutBracket(r, start);
      return None;
    }
    var i := start + 1;
    while i < n && r[i] != ']' && r[i] != '\n'
      invariant start < i <= n
      invariant forall j | start < j < i :: r[j] != ']' && r[j] != '\n'
    {
      i := i + 1;
    }
    var mid := i;
    forall text, url | LinkAt(r, start, text, url) ensures mid == start + 1 + |text| < n && r[mid] == ']' {
      LinkParts(r, start, text, url);
    }
    if i >= n || r[i] != ']' {
      return None;
    }
    var text := r[start + 1..i];
    i := i + 1;
    forall t, u | LinkAt(r, start, t, u) ensures i < n && r[i] == '(' {
      LinkParts(r, start, t, u);
    }
    if i >= n || r[i] != '(' {
      return None;
    }
    i := i + 1;
    var urlStart := i;
    while i < n && r[i] != ')' && r[i] != '\n'
      invariant urlStart <= i <= n
      invariant forall j | urlStart <= j < i :: r[j] != ')' && r[j] != '\n'
    {
      i := i + 1;
    }
    forall t, u | LinkAt(r, start, t, u) ensures i < n && r[i] == ')' && u == r[urlStart..i] && IsHttp(u) {
      LinkParts(r, start, t, u);
    }
    if i >= n || r[i] != ')' {
      return None;
    }
    var url := r[urlStart..i];
    i := i + 1;
    if !IsHttp(url) {
      return None;
    }
    LinkFromParts(r, start, mid, i - 1);
    return Some(Link(url, text, i));
  }

  lemma NoLinkWithoutBracket(r: Runes, start: nat)
    requires start >= |r| || r[start] != '['
    ensures forall text, url :: !LinkAt(r, start, text, url)
  {
    forall text, url | LinkAt(r, start, text, url) ensures false {
      LinkParts(r, start, text, url);
    }
  }

  // ----- tokens -----

  /** Slack's form of a link. */
  function RenderLink(text: Runes, url: Runes): Runes {
    "<" + url + "|" + text + ">"
  }

  datatype Token = Fenced(code: Runes) | Inline(code: Runes) | Converted(text: Runes, url: Runes) | Plain(c: char) {
    /** The text this token was read from. */
    function Source(): Runes {
      match this
      case Fenced(code) => code
      case Inline(code) => code
      case Converted(text, url) => LinkSource(text, url)
      case Plain(c) => [c]
    }

    /** The text it is written as: only links change. */
    function Rendered(): Runes {
      match this
      case Fenced(code) => code
      case Inline(code) => code
      case Converted(text, url) => RenderLink(text, url)
      case Plain(c) => [c]
    }
  }

  predicate FenceAt(r: Runes, i: nat) {
    i + 3 <= |r| && r[i..i + 3] == FENCE
  }

  /** The end of fenced code whose opening fence ends at j: after the next fence, or the end of the text. */
  function FenceEnd(r: Runes, j: nat): (e: nat)
    requires j <= |r|
    ensures j <= e <= |r|
    decreases |r| - j
  {
    if j == |r| then |r| else if FenceAt(r, j) then j + 3 else FenceEnd(r, j + 1)
  }

  /** The end of inline code after its backtick: after the next unescaped one, or the end of the text. */
  function InlineEnd(r: Runes, j: nat): (e: nat)
    requires j <= |r|
    ensures j <= e <= |r|
    decreases |r| - j
  {
    if j == |r| then |r|
    else if r[j] == '`' then j + 1
    else if r[j] == '\\' && j + 1 < |r| then InlineEnd(r, j + 2)
    else InlineEnd(r, j + 1)
  }

  /** The token at a position: code first, then a link, else a single rune. */
  ghost function TokenAt(r: Runes, i: nat): (t: Token)
    requires i < |r|
    ensures 1 <= |t.Source()| && i + |t.Source()| <= |r| && r[i..i + |t.Source()|] == t.Source()
  {
    if FenceAt(r, i) then Fenced(r[i..FenceEnd(r, i + 3)])
    else if r[i] == '`' then Inline(r[i..InlineEnd(r, i + 1)])
    else if exists text, url :: LinkAt(r, i, text, url) then
      var text, url :| LinkAt(r, i, text, url);
      assert r[i..][..|LinkSource(text, url)|] == LinkSource(text, url);
      Converted(text, url)
    else Plain(r[i])
  }

  ghost function Tokens(r: Runes, i: nat): seq<Token>
    requires i <= |r|
    decreases |r| - i
  {
    if i == |r| then [] else [TokenAt(r, i)] + Tokens(r, i + |TokenAt(r, i).Source()|)
  }

  function Sources(tokens: seq<Token>): Runes {
    if tokens == [] then [] else tokens[0].Source() + Sources(tokens[1..])
  }

  function Render(tokens: seq<Token>): Runes {
    if tokens == [] then [] else tokens[0].Rendered() + Render(tokens[1..])
  }

  function LinkCount(tokens: seq<Token>): nat {
    if tokens == [] then 0 else (if tokens[0].Converted? then 1 else 0) + LinkCount(tokens[1..])
  }

  /** The tokenization loses nothing: its sources make up the text. */
  lemma {:induction false} Lossless(r: Runes, i: nat)
    requires i <= |r|
    ensures Sources(Tokens(r, i)) == r[i..]
    decreases |r| - i
  {
    hide TokenAt, Token.Source;
    if i < |r| {
      var next := i + |TokenAt(r, i).Source()|;
      Lossless(r, next);
      assert Tokens(r, i)[1..] == Tokens(r, next);
      assert r[i..] == r[i..next] + r[next..];
    }
  }

  ghost function TokensOf(r: Runes): seq<Token> {
    Tokens(r, 0)
  }

  /** The tokens of a text are all of it, and written out they are shorter by one rune per link. */
  lemma TokensAreTheText(r: Runes)
    ensures Sources(TokensOf(r)) == r
    ensures |Render(TokensOf(r))| == |r| - LinkCount(TokensOf(r))
  {
    hide Tokens;
    Lossless(r, 0);
    LengthLaw(TokensOf(r));
  }

  /** Each conversion shortens the text by exactly one rune. */
  lemma {:induction false} LengthLaw(tokens: seq<Token>)
    ensures |Render(tokens)| + LinkCount(tokens) == |Sources(tokens)|
  {
    if tokens != [] {
      LengthLaw(tokens[1..]);
    }
  }

  /** Fenced code reaches to the first closing fence; there is none when it reaches to the end without one. */
  lemma {:induction false} FenceEndsFirst(r: Runes, j: nat)
    requires j <= |r|
    ensures var e := FenceEnd(r, j);
            || (j + 3 <= e && FenceAt(r, e - 3) && forall m | j <= m < e - 3 :: !FenceAt(r, m))
            || (e == |r| && forall m | j <= m < |r| :: !FenceAt(r, m))
    decreases |r| - j
  {
    if j < |r| && !FenceAt(r, j) {
      FenceEndsFirst(r, j + 1);
    }
  }

  /** How many backslashes in a row stand right before m, counted back to from. */
  function Backslashes(r: Runes, from: nat, m: nat): nat
    requires from <= m <= |r|
    decreases m
  {
    if m > from && r[m - 1] == '\\' then 1 + Backslashes(r, from, m - 1) else 0
  }

  /** A backtick that is not escaped: an even number of backslashes stands before it. */
  predicate Closes(r: Runes, from: nat, m: nat)
    requires from <= m < |r|
  {
    r[m] == '`' && Backslashes(r, from, m) % 2 == 0
  }

  /** An escape sequence, or a rune that is no backslash, does not change what closes after it. */
  lemma {:induction false} EscapeKeepsParity(r: Runes, j: nat, next: nat, m: nat)
    requires j < next <= m <= |r|
    requires if r[j] == '\\' then next == j + 2 else next == j + 1
    ensures Backslashes(r, j, m) % 2 == Backslashes(r, next, m) % 2
    decreases m
  {
    if m > next && r[m - 1] == '\\' {
      EscapeKeepsParity(r, j, next, m - 1);
    } else if m == next && next == j + 2 && r[j + 1] == '\\' {
      assert Backslashes(r, j, j) == 0;
      assert Backslashes(r, j, j + 1) == 1;
    }
  }

  /** Inline code reaches to the first backtick that closes it; there is none when it reaches to the end without one. */
  lemma {:induction false} InlineEndsFirst(r: Runes, j: nat)
    requires j <= |r|
    ensures var e := InlineEnd(r, j);
            || (j < e && Closes(r, j, e - 1) && forall m | j <= m < e - 1 :: !Closes(r, j, m))
            || (e == |r| && forall m | j <= m < |r| :: !Closes(r, j, m))
    decreases |r| - j
  {
    if j < |r| && r[j] != '`' {
      var next := if r[j] == '\\' && j + 1 < |r| then j + 2 else j + 1;
      InlineEndsFirst(r, next);
      if r[j] != '\\' || j + 1 < |r| {
        forall m | next <= m < |r| ensures Closes(r, j, m) <==> Closes(r, next, m) {
          EscapeKeepsParity(r, j, next, m);
        }
      }
      if next == j + 2 {
        assert Backslashes(r, j, j) == 0;
        assert Backslashes(r, j, j + 1) == 1;
      }
    }
  }

  /** This text, with the rest rendered, is the whole text rendered. */
  ghost predicate Written(r: Runes, i: nat, b: Runes)
    requires i <= |r|
  {
    b + Render(Tokens(r, i)) == Render(TokensOf(r))
  }

  lemma WriteToken(r: Runes, i: nat, b: Runes)
    requires i < |r| && Written(r, i, b)
    ensures Written(r, i + |TokenAt(r, i).Source()|, b + TokenAt(r, i).Rendered())
  {
    hide TokenAt, Token.Rendered, Token.Source;
    var t := TokenAt(r, i);
    var rest := Tokens(r, i + |t.Source()|);
    assert Tokens(r, i)[1..] == rest;
    assert b + (t.Rendered() + Render(rest)) == (b + t.Rendered()) + Render(rest);
  }

  lemma WriteStarts(r: Runes)
    ensures Written(r, 0, [])
  {
  }

  lemma WriteEnds(r: Runes, b: Runes)
    requires Written(r, |r|, b)
    ensures b == Render(TokensOf(r))
  {
    assert b + [] == b;
  }

  // ----- which token -----

  /** Code comes first, then links; everything else is a single rune. */
  lemma TokenKinds(r: Runes, i: nat)
    requires i < |r|
    ensures var t := TokenAt(r, i);
            && (t.Fenced? <==> FenceAt(r, i))
            && (t.Inline? <==> !FenceAt(r, i) && r[i] == '`')
            && (t.Converted? <==> exists text, url :: LinkAt(r, i, text, url))
            && (t.Converted? ==> LinkAt(r, i, t.text, t.url))
            && (t.Fenced? ==> t.code == r[i..FenceEnd(r, i + 3)])
            && (t.Inline? ==> t.code == r[i..InlineEnd(r, i + 1)])
            && (t.Plain? ==> t.c == r[i])
  {
    hide LinkAt, FenceEnd, InlineEnd;
    FenceStarts(r, i);
    forall text, url | LinkAt(r, i, text, url) ensures r[i] == '[' {
      LinkParts(r, i, text, url);
    }
  }

  // ----- reading the output -----

  /** The first position of c from p on, or the end. */
  function Find(o: Runes, c: char, p: nat): (e: nat)
    requires p <= |o|
    ensures p <= e <= |o|
    ensures e < |o| ==> o[e] == c
    ensures forall j | p <= j < e :: o[j] != c
    decreases |o| - p
  {
    if p == |o| || o[p] == c then p else Find(o, c, p + 1)
  }

  /** A link as Slack reads it: "<", the url up to the first "|", the text up to the next ">". */
  function ReadLink(o: Runes, p: nat): Option<Link> {
    if p < |o| && o[p] == '<' then
      var bar := Find(o, '|', p + 1);
      if bar == |o| then None
      else
        var close := Find(o, '>', bar + 1);
        if close == |o| then None else Some(Link(o[p + 1..bar], o[bar + 1..close], close + 1))
    else None
  }

  lemma FoundAt(o: Runes, c: char, p: nat, e: nat)
    requires p <= e < |o| && o[e] == c && forall j | p <= j < e :: o[j] != c
    ensures Find(o, c, p) == e
  {
  }

  /** Written at p, this link. */
  predicate WrittenAt(o: Runes, p: nat, text: Runes, url: Runes) {
    var bar, close := p + 1 + |url|, p + 2 + |url| + |text|;
    && close < |o|
    && o[p] == '<' && o[p + 1..bar] == url && o[bar] == '|' && o[bar + 1..close] == text && o[close] == '>'
  }

  /** Slack reads a link as it was written if and only if its url has no "|" and its text no ">". */
  lemma LinkReadsBack(o: Runes, p: nat, text: Runes, url: Runes)
    requires WrittenAt(o, p, text, url)
    ensures ReadLink(o, p) == Some(Link(url, text, p + 3 + |url| + |text|)) <==> '|' !in url && '>' !in text
    ensures '|' !in url ==> Find(o, '|', p + 1) == p + 1 + |url|
  {
    var bar, close := p + 1 + |url|, p + 2 + |url| + |text|;
    assert forall j | p + 1 <= j < bar :: o[j] == url[j - p - 1];
    assert forall j | bar + 1 <= j < close :: o[j] == text[j - bar - 1];
    if '|' !in url {
      FoundAt(o, '|', p + 1, bar);
      if '>' !in text {
        FoundAt(o, '>', bar + 1, close);
      } else {
        var x :| 0 <= x < |text| && text[x] == '>';
        assert o[bar + 1 + x] == '>';
      }
    } else {
      var x :| 0 <= x < |url| && url[x] == '|';
      assert o[p + 1 + x] == '|';
      assert Find(o, '|', p + 1) < bar;
    }
  }

  /** Where token n begins in the text, and where it is written in the output. */
  function SourceStart(tokens: seq<Token>, n: nat): nat
    requires n <= |tokens|
  {
    |Sources(tokens[..n])|
  }

  function OutputStart(tokens: seq<Token>, n: nat): nat
    requires n <= |tokens|
  {
    |Render(tokens[..n])|
  }

  lemma {:induction false} RenderAt(tokens: seq<Token>, n: nat)
    requires n < |tokens|
    ensures var p, w := OutputStart(tokens, n), tokens[n].Rendered();
            OutputStart(tokens, n + 1) == p + |w| <= |Render(tokens)| && Render(tokens)[p..p + |w|] == w
  {
    hide Token.Rendered;
    if n == 0 {
      assert tokens[..1] == [tokens[0]] && tokens[..1][1..] == [];
      assert Render(tokens[..1]) == tokens[0].Rendered() + Render([]);
    } else {
      var rest := tokens[1..];
      RenderAt(rest, n - 1);
      assert tokens[..n][1..] == rest[..n - 1] && tokens[..n + 1][1..] == rest[..n];
      assert Render(tokens) == tokens[0].Rendered() + Render(rest);
      var p, w := OutputStart(rest, n - 1), rest[n - 1].Rendered();
      var a := |tokens[0].Rendered()|;
      assert Render(tokens)[a + p..a + p + |w|] == Render(rest)[p..p + |w|];
    }
  }

  lemma {:induction false} SourceAt(tokens: seq<Token>, n: nat)
    requires n < |tokens|
    ensures var p, w := SourceStart(tokens, n), tokens[n].Source();
            SourceStart(tokens, n + 1) == p + |w| <= |Sources(tokens)| && Sources(tokens)[p..p + |w|] == w
  {
    hide Token.Source;
    if n == 0 {
      assert tokens[..1] == [tokens[0]] && tokens[..1][1..] == [];
      assert Sources(tokens[..1]) == tokens[0].Source() + Sources([]);
    } else {
      var rest := tokens[1..];
      SourceAt(rest, n - 1);
      assert tokens[..n][1..] == rest[..n - 1] && tokens[..n + 1][1..] == rest[..n];
      assert Sources(tokens) == tokens[0].Source() + Sources(rest);
      var p, w := SourceStart(rest, n - 1), rest[n - 1].Source();
      var a := |tokens[0].Source()|;
      assert Sources(tokens)[a + p..a + p + |w|] == Sources(rest)[p..p + |w|];
    }
  }

  /** One token, from the text to the output: a link is written for Slack, anything else unchanged. */
  ghost predicate Carried(r: Runes, o: Runes, tokens: seq<Token>, n: nat)
    requires n < |tokens|
  {
    var q, q' := SourceStart(tokens, n), SourceStart(tokens, n + 1);
    var p, p' := OutputStart(tokens, n), OutputStart(tokens, n + 1);
    && q <= q' <= |r| && p <= p' <= |o|
    && match tokens[n]
       case Converted(text, url) =>
         && LinkAt(r, q, text, url) && q' == q + |text| + |url| + 4
         && WrittenAt(o, p, text, url) && p' == p + |text| + |url| + 3
       case _ => o[p..p'] == r[q..q']
  }

  lemma {:induction false} TokensAreLinks(r: Runes, i: nat, n: nat)
    requires i <= |r| && n < |Tokens(r, i)|
    ensures var t := Tokens(r, i)[n];
            t.Converted? ==> i + SourceStart(Tokens(r, i), n) <= |r|
                             && LinkAt(r, i + SourceStart(Tokens(r, i), n), t.text, t.url)
    decreases n
  {
    hide LinkAt, Token.Source, TokenAt;
    var tokens, next := Tokens(r, i), i + |TokenAt(r, i).Source()|;
    assert tokens[0] == TokenAt(r, i) && tokens[1..] == Tokens(r, next);
    if n == 0 {
      TokenKinds(r, i);
      assert tokens[..0] == [];
    } else {
      TokensAreLinks(r, next, n - 1);
      assert tokens[..n][1..] == tokens[1..][..n - 1];
    }
  }

  /**
   The converted text, token by token and in order: a link of the text is found where
   its turn is as "<url|text>", and Slack reads its url and text back if and only if
   they hold no delimiter; code and single runes are found unchanged.
   */
  lemma OutputReadsBack(r: Runes)
    ensures var tokens, o := TokensOf(r), Render(TokensOf(r));
            && Sources(tokens) == r
            && (forall n | 0 <= n < |tokens| :: Carried(r, o, tokens, n))
            && (forall n | 0 <= n < |tokens| && tokens[n].Converted? ::
                  (ReadLink(o, OutputStart(tokens, n)) ==
                   Some(Link(tokens[n].url, tokens[n].text, OutputStart(tokens, n + 1)))
                   <==> '|' !in tokens[n].url && '>' !in tokens[n].text))
  {
    hide Tokens, Render, Sources, LinkAt, ReadLink, WrittenAt, OutputStart, SourceStart;
    TokensAreTheText(r);
    var tokens, o := TokensOf(r), Render(TokensOf(r));
    forall n | 0 <= n < |tokens| ensures Carried(r, o, tokens, n) {
      TokenIsCarried(r, n);
    }
    forall n | 0 <= n < |tokens| && tokens[n].Converted?
      ensures ReadLink(o, OutputStart(tokens, n)) ==
              Some(Link(tokens[n].url, tokens[n].text, OutputStart(tokens, n + 1)))
              <==> '|' !in tokens[n].url && '>' !in tokens[n].text
    {
      assert Carried(r, o, tokens, n);
      LinkReadsBack(o, OutputStart(tokens, n), tokens[n].text, tokens[n].url);
    }
  }

  lemma TokenIsCarried(r: Runes, n: nat)
    requires n < |TokensOf(r)|
    ensures Carried(r, Render(TokensOf(r)), TokensOf(r), n)
  {
    hide Tokens, Render, Sources, LinkAt, OutputStart, SourceStart, RenderLink, WrittenAt;
    var tokens, o := TokensOf(r), Render(TokensOf(r));
    TokensAreTheText(r);
    RenderAt(tokens, n);
    SourceAt(tokens, n);
    TokensAreLinks(r, 0, n);
    if tokens[n].Converted? {
      RenderedIsWritten(o, OutputStart(tokens, n), tokens[n].text, tokens[n].url);
    }
  }

  /** A part of a text found in another is found there as well. */
  lemma PartFound(o: Runes, p: nat, w: Runes, a: nat, b: nat)
    requires p + |w| <= |o| && o[p..p + |w|] == w && a <= b <= |w|
    ensures o[p + a..p + b] == w[a..b]
  {
    forall j | 0 <= j < b - a ensures o[p + a..p + b][j] == w[a..b][j] {
      assert o[p..p + |w|][a + j] == w[a + j];
    }
  }

  lemma RenderedIsWritten(o: Runes, p: nat, text: Runes, url: Runes)
    requires p + |RenderLink(text, url)| <= |o| && o[p..p + |RenderLink(text, url)|] == RenderLink(text, url)
    ensures WrittenAt(o, p, text, url) && |RenderLink(text, url)| == |text| + |url| + 3
  {
    var w, m, n := RenderLink(text, url), |url|, |text|;
    RenderedParts(text, url);
    hide RenderLink;
    PartFound(o, p, w, 1, 1 + m);
    PartFound(o, p, w, 2 + m, 2 + m + n);
    var cut := o[p..p + |w|];
    assert cut[0] == o[p] && cut[1 + m] == o[p + 1 + m] && cut[2 + m + n] == o[p + 2 + m + n];
  }

  lemma RenderedParts(text: Runes, url: Runes)
    ensures var w, m, n := RenderLink(text, url), |url|, |text|;
            && |w| == n + m + 3
            && w[0] == '<' && w[1..1 + m] == url && w[1 + m] == '|'
            && w[2 + m..2 + m + n] == text && w[2 + m + n] == '>'
  {
    assert |"<"| == 1 && |"|"| == 1 && |">"| == 1;
  }

  // ----- the scanner -----

  lemma FenceStarts(r: Runes, i: nat)
    requires i < |r|
    ensures FenceAt(r, i) ==> r[i] == '`'
  {
    if FenceAt(r, i) {
      assert r[i] == r[i..i + 3][0];
    }
  }

  // One step of the scanner for each kind of token.

  lemma WriteFence(r: Runes, i: nat, b: Runes)
    requires i < |r| && Written(r, i, b) && FenceAt(r, i)
    ensures Written(r, FenceEnd(r, i + 3), b + r[i..FenceEnd(r, i + 3)])
  {
    hide Written;
    WriteToken(r, i, b);
  }

  lemma WriteInline(r: Runes, i: nat, b: Runes)
    requires i < |r| && Written(r, i, b) && !FenceAt(r, i) && r[i] == '`'
    ensures Written(r, InlineEnd(r, i + 1), b + r[i..InlineEnd(r, i + 1)])
  {
    hide Written;
    WriteToken(r, i, b);
  }

  lemma WriteLink(r: Runes, i: nat, b: Runes, text: Runes, url: Runes)
    requires i < |r| && Written(r, i, b) && r[i] == '[' && LinkAt(r, i, text, url)
    ensures i < i + |LinkSource(text, url)| <= |r|
    ensures Written(r, i + |LinkSource(text, url)|, b + RenderLink(text, url))
  {
    hide Written;
    FenceStarts(r, i);
    var t := TokenAt(r, i);
    LinkUnique(r, i, text, url, t.text, t.url);
    WriteToken(r, i, b);
  }

  lemma WriteRune(r: Runes, i: nat, b: Runes)
    requires i < |r| && Written(r, i, b) && !FenceAt(r, i) && r[i] != '`'
    requires forall text, url :: !LinkAt(r, i, text, url)
    ensures Written(r, i + 1, b + [r[i]])
  {
    hide Written;
    WriteToken(r, i, b);
  }

  /** The text with its links converted; it is shorter by one rune for each. */
  method AdjustMarkdownLinks(r: Runes) returns (b: Runes)
    ensures b == Render(TokensOf(r))
    ensures |b| == |r| - LinkCount(TokensOf(r))
    ensures forall n | 0 <= n < |TokensOf(r)| :: Carried(r, b, TokensOf(r), n)
  {
    hide Written, TokensOf, Render, Carried, ReadLink, OutputStart, LinkCount, LinkAt, FenceEnd, InlineEnd,
         LinkSource, RenderLink;
    TokensAreTheText(r);
    OutputReadsBack(r);
    WriteStarts(r);
    b := [];
    var n, i := |r|, 0;
    while i < n
      invariant i <= n && Written(r, i, b)
      decreases n - i
    {
      if i + 2 < n && r[i..i + 3] == FENCE {
        var start := i;
        i := ScanFence(r, start);
        WriteFence(r, start, b);
        b := b + r[start..i];
        continue;
      }
      if r[i] == '`' {
        var start := i;
        i := ScanInline(r, start);
        WriteInline(r, start, b);
        b := b + r[start..i];
        continue;
      }
      if r[i] == '[' {
        var link := ParseLink(r, i);
        if link.Some? {
          WriteLink(r, i, b, link.value.text, link.value.url);
          b := b + RenderLink(link.value.text, link.value.url);
          i := link.value.end;
          continue;
        }
      } else {
        NoLinkWithoutBracket(r, i);
      }
      WriteRune(r, i, b);
      b := b + [r[i]];
      i := i + 1;
    }
    WriteEnds(r, b);
  }

  /** The scanner's first inner loop. */
  method ScanFence(r: Runes, start: nat) returns (i: nat)
    requires FenceAt(r, start)
    ensures i == FenceEnd(r, start + 3)
  {
    var n := |r|;
    i := start + 3;
    while i < n
      invariant start + 3 <= i <= n
      invariant FenceEnd(r, i) == FenceEnd(r, start + 3)
    {
      if i + 2 < n && r[i..i + 3] == FENCE {
        i := i + 3;
        return;
      }
      i := i + 1;
    }
  }

  /** The scanner's second inner loop. */
  method ScanInline(r: Runes, start: nat) returns (i: nat)
    requires start < |r| && r[start] == '`'
    ensures i == InlineEnd(r, start + 1)
  {
    var n := |r|;
    i := start + 1;
    while i < n && r[i] != '`'
      invariant start + 1 <= i <= n
      invariant InlineEnd(r, i) == InlineEnd(r, start + 1)
    {
      if r[i] == '\\' && i + 1 < n {
        i := i + 1;
      }
      i := i + 1;
    }
    if i < n {
      i := i + 1;
    }
  }
}
