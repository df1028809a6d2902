/**
 The inline half of the assistant's Markdown parser (`addText`, `parseInline` in
 public/dominion-markdown.js). Every regular expression of the source is a matcher below.
 */
module MarkdownInline {
  import opened Sequences
  import opened Text

  datatype Token =
    | TextToken(value: string)
    | Code(code: string)
    | Strong(children: seq<Token>)
    | Del(children: seq<Token>)
    | Em(children: seq<Token>)
    | Link(href: string, title: string, children: seq<Token>)

  // ---- the patterns ----

  /** Characters a backslash escapes. */
  predicate IsEscapable(c: char) {
    c == '\\' || c == '`' || c == '*' || c == '[' || c == ']' || c == '(' || c == ')' || c == '~'
    || c == '#' || c == '>' || c == '+' || c == '-'
  }

  predicate IsCodeChar(c: char) { c != '`' && c != '\n' }

  predicate IsEmChar(c: char) { c != '*' && c != '\n' }

  predicate IsLabelChar(c: char) { c != ']' && c != '\n' }

  predicate IsHrefChar(c: char) { c != ')' && !IsSpace(c) }

  predicate IsTitleChar(c: char) { c != '"' }

  predicate IsAutoChar(c: char) { c != '>' && !IsSpace(c) }

  predicate IsUrlChar(c: char) { c != '<' && !IsSpace(c) }

  predicate IsTailChar(c: char) {
    c == ')' || c == ',' || c == '.' || c == ';' || c == ':' || c == '!' || c == '?'
  }

  /** A nonempty run of `p` between two delimiters: the length of the match, or 0. */
  function Enclosed(s: string, open: char, p: char -> bool, close: char): (n: nat)
    ensures n <= |s|
    ensures n > 0 ==> n >= 3 && s[0] == open && s[n - 1] == close
    ensures n > 0 ==> forall k | 1 <= k < n - 1 :: p(s[k])
  {
    if s != "" && s[0] == open then
      var n := RunLength(p, s[1..]);
      assert forall k | 1 <= k < n + 1 :: s[k] == s[1..][k - 1];
      if n > 0 && n + 1 < |s| && s[n + 1] == close then n + 2 else 0
    else 0
  }

  /** A closing pair of `d` at the end of `s[..n]`, right after a non-space character. */
  predicate ClosesAt(s: string, d: char, n: nat) {
    5 <= n <= |s| && s[n - 2] == d && s[n - 1] == d && !IsSpace(s[n - 3])
  }

  /** The least closing position from `n` on, or 0: the lazy `[\s\S]*?\S`. */
  function FirstClose(s: string, d: char, n: nat): (r: nat)
    requires 5 <= n
    ensures r > 0 ==> n <= r && ClosesAt(s, d, r)
    ensures forall k | n <= k && (r > 0 ==> k < r) :: !ClosesAt(s, d, k)
    decreases |s| - n
  {
    if n > |s| then 0 else if ClosesAt(s, d, n) then n else FirstClose(s, d, n + 1)
  }

  /** `^dd(?=\S)([\s\S]*?\S)dd`: the length of the match, or 0. */
  function Doubled(s: string, d: char): (n: nat)
    ensures n > 0 ==> 5 <= n <= |s| && s[0] == d && s[1] == d && !IsSpace(s[2]) && ClosesAt(s, d, n)
  {
    if |s| >= 3 && s[0] == d && s[1] == d && !IsSpace(s[2]) then FirstClose(s, d, 5) else 0
  }

  /** Where the run of href characters from `h` on ends. */
  function HrefEnd(s: string, h: nat): (e: nat)
    requires h <= |s|
    ensures h <= e <= |s| && (forall k | h <= k < e :: IsHrefChar(s[k])) && (e < |s| ==> !IsHrefChar(s[e]))
  {
    assert forall k | h <= k < |s| :: s[k] == s[h..][k - h];
    h + RunLength(IsHrefChar, s[h..])
  }

  datatype LinkMatch = NoLink | LinkMatch(caption: string, href: string, title: string, length: nat)

  /** `^\[([^\]\n]+)\]\(([^)\s]+)(?:\s+"([^"]*)")?\)`. */
  function MatchLink(s: string): (m: LinkMatch)
    ensures m.LinkMatch? ==> |m.caption| + 4 <= m.length <= |s| && m.caption == s[1..|m.caption| + 1] && m.caption != ""
  {
    var n := Enclosed(s, '[', IsLabelChar, ']');
    if n == 0 || n >= |s| || s[n] != '(' then NoLink
    else
      var h := n + 1;
      var e := HrefEnd(s, h);
      if e == h || e >= |s| then NoLink
      else if s[e] == ')' then LinkMatch(s[1..n - 1], s[h..e], "", e + 1)
      else
        var q := e + RunLength(IsSpace, s[e..]);
        if q >= |s| || s[q] != '"' then NoLink
        else
          var c := q + 1 + RunLength(IsTitleChar, s[q + 1..]);
          if c + 1 < |s| && s[c + 1] == ')' then LinkMatch(s[1..n - 1], s[h..e], s[q + 1..c], c + 2) else NoLink
  }

  /** The length of "http://" or "https://" at the start, or 0. */
  function SchemeLength(s: string): (n: nat)
    ensures n <= |s|
  {
    if "http://" <= s then 7 else if "https://" <= s then 8 else 0
  }

  /** `^<(https?:\/\/[^>\s]+)>`. */
  function MatchAutolink(s: string): (n: nat)
    ensures n <= |s| && (n > 0 ==> n >= 3)
  {
    if s != "" && s[0] == '<' && SchemeLength(s[1..]) > 0 then
      var start := 1 + SchemeLength(s[1..]);
      var end := start + RunLength(IsAutoChar, s[start..]);
      if end > start && end < |s| then if s[end] == '>' then end + 1 else 0 else 0
    else 0
  }

  /** `^https?:\/\/[^\s<]+`. */
  function MatchUrl(s: string): (n: nat)
    ensures n <= |s| && (n > 0 ==> SchemeLength(s) > 0 && n > SchemeLength(s))
  {
    var start := SchemeLength(s);
    if start > 0 && RunLength(IsUrlChar, s[start..]) > 0 then start + RunLength(IsUrlChar, s[start..]) else 0
  }

  /** The url without its trailing punctuation `[),.;:!?]+$`. */
  function TrimTail(s: string): (r: string)
    ensures r <= s
    ensures forall k | |r| <= k < |s| :: IsTailChar(s[k])
    ensures r != "" ==> !IsTailChar(r[|r| - 1])
  {
    if s != "" && IsTailChar(s[|s| - 1]) then TrimTail(s[..|s| - 1]) else s
  }

  // ---- the parse ----

  /** What one step of the parser emits and how much of the source it consumes. */
  function NextToken(s: string): (r: (seq<Token>, nat))
    requires s != ""
    ensures 0 < r.1 <= |s|
    decreases |s|, 1
  {
    var code := Enclosed(s, '`', IsCodeChar, '`');
    var strong := Doubled(s, '*');
    var del := Doubled(s, '~');
    if s[0] == '\\' && |s| > 1 && IsEscapable(s[1]) then ([TextToken([s[1]])], 2)
    else if code > 0 then ([Code(s[1..code - 1])], code)
    else if strong > 0 then ([Strong(Inline(s[2..strong - 2]))], strong)
    else if del > 0 then ([Del(Inline(s[2..del - 2]))], del)
    else LinkOrText(s)
  }

  /** The later patterns, and a single character when none matches. */
  function LinkOrText(s: string): (r: (seq<Token>, nat))
    requires s != ""
    ensures 0 < r.1 <= |s|
    decreases |s|, 0
  {
    var link := MatchLink(s);
    var em := Enclosed(s, '*', IsEmChar, '*');
    var auto := MatchAutolink(s);
    var url := MatchUrl(s);
    if link.LinkMatch? then ([Link(link.href, link.title, Inline(link.caption))], link.length)
    else if em > 0 then ([Em(Inline(s[1..em - 1]))], em)
    else if auto > 0 then ([Link(s[1..auto - 1], "", [TextToken(s[1..auto - 1])])], auto)
    else if url > 0 then (UrlTokens(s[..url]), url)
    else ([TextToken([s[0]])], 1)
  }

  /** A bare url, with trailing punctuation given back as text. */
  function UrlTokens(found: string): seq<Token> {
    var href := TrimTail(found);
    [Link(href, "", [TextToken(href)])] +
    if |href| < |found| then [TextToken(found[|href|..])] else []
  }

  /** All tokens as they are found, neighbouring texts still separate. */
  function Scan(s: string): seq<Token>
    decreases |s|, 2
  {
    if s == "" then [] else NextToken(s).0 + Scan(s[NextToken(s).1..])
  }

  /** Append a token; texts join the text before them. */
  function Push(tokens: seq<Token>, t: Token): seq<Token> {
    if !t.TextToken? then tokens + [t]
    else if t.value == "" then tokens
    else if tokens != [] && tokens[|tokens| - 1].TextToken? then
      tokens[..|tokens| - 1] + [TextToken(tokens[|tokens| - 1].value + t.value)]
    else tokens + [t]
  }

  function Coalesce(ts: seq<Token>): seq<Token> {
    if ts == [] then [] else Push(Coalesce(ts[..|ts| - 1]), ts[|ts| - 1])
  }

  function Inline(s: string): seq<Token>
    decreases |s|, 3
  {
    Coalesce(Scan(s))
  }

  /** No empty text and no two neighbouring texts. */
  predicate TextsApart(ts: seq<Token>) {
    && (forall k | 0 <= k < |ts| && ts[k].TextToken? :: ts[k].value != "")
    && forall k | 0 <= k < |ts| - 1 :: !(ts[k].TextToken? && ts[k + 1].TextToken?)
  }

  /** The reader sees the text added at the end, and texts stay apart. */
  method AddText(tokens: seq<Token>, value: string) returns (r: seq<Token>)
    ensures Visible(r) == Visible(tokens) + value && (TextsApart(tokens) ==> TextsApart(r))
    ensures r == Push(tokens, TextToken(value))
  {
    PushVisible(tokens, TextToken(value));
    if value == "" {
      return tokens;
    }
    if tokens != [] && tokens[|tokens| - 1].TextToken? {
      var last := tokens[|tokens| - 1];
      r := tokens[|tokens| - 1 := TextToken(last.value + value)];
      assert r == Push(tokens, TextToken(value));
      return;
    }
    return tokens + [TextToken(value)];
  }

  /** The loop of the parser: an index over the source and one growing token list. */
  method ParseInline(source: string) returns (tokens: seq<Token>)
    ensures tokens == Inline(source)
    decreases |source|, 3
  {
    tokens := [];
    var i := 0;
    ghost var emitted: seq<Token> := [];
    ghost var goal := ScanStarts(source);
    while i < |source|
      invariant i <= |source|
      invariant tokens == Coalesce(emitted) && Leaves(emitted, source[i..], goal)
    {
      tokens, i, emitted := ParseAt(source, i, tokens, emitted, goal);
    }
    ScanEnds(source, emitted);
  }

  /** The loop body: one more piece of the source is consumed. */
  method ParseAt(source: string, i: nat, before: seq<Token>, ghost emitted: seq<Token>, ghost goal: seq<Token>)
    returns (tokens: seq<Token>, next: nat, ghost after: seq<Token>)
    requires i < |source| && before == Coalesce(emitted) && Leaves(emitted, source[i..], goal)
    ensures i < next <= |source| && tokens == Coalesce(after) && Leaves(after, source[next..], goal)
    decreases |source| - i, 2
  {
    var n;
    tokens, n, after := ParseNext(source[i..], before, emitted, goal);
    next := i + n;
    DropDrop(source, i, n);
  }

  /** The tokens emitted so far and those of the rest are the tokens of the whole. */
  ghost predicate Leaves(emitted: seq<Token>, rest: string, goal: seq<Token>) {
    emitted + Scan(rest) == goal
  }

  lemma ScanStarts(source: string) returns (goal: seq<Token>)
    ensures goal == Scan(source) && Leaves([], source[0..], goal)
  {
    goal := Scan(source);
    assert source[0..] == source && [] + goal == goal;
  }

  lemma DropDrop(source: string, i: nat, n: nat)
    requires i + n <= |source|
    ensures source[i..][n..] == source[i + n..]
  {}

  /** One step: a piece is taken off the rest of the source. */
  method ParseNext(rest: string, before: seq<Token>, ghost emitted: seq<Token>, ghost goal: seq<Token>)
    returns (tokens: seq<Token>, n: nat, ghost after: seq<Token>)
    requires rest != "" && before == Coalesce(emitted) && Leaves(emitted, rest, goal)
    ensures 0 < n <= |rest| && tokens == Coalesce(after) && Leaves(after, rest[n..], goal)
    decreases |rest|, 1
  {
    tokens, n := ParseStep(rest, before, emitted);
    after := ScanStep(rest, emitted, goal);
  }

  lemma ScanUnfolds(s: string)
    requires s != ""
    ensures Scan(s) == NextToken(s).0 + Scan(s[NextToken(s).1..])
  {}

  lemma RegroupTokens(a: seq<Token>, b: seq<Token>, c: seq<Token>, rest: seq<Token>, whole: seq<Token>)
    requires rest == b + c && a + rest == whole
    ensures a + b + c == whole
  {}

  lemma ScanStep(rest: string, emitted: seq<Token>, goal: seq<Token>) returns (after: seq<Token>)
    requires rest != "" && Leaves(emitted, rest, goal)
    ensures after == emitted + NextToken(rest).0 && Leaves(after, rest[NextToken(rest).1..], goal)
  {
    ScanUnfolds(rest);
    after := emitted + NextToken(rest).0;
    RegroupTokens(emitted, NextToken(rest).0, Scan(rest[NextToken(rest).1..]), Scan(rest), goal);
  }

  lemma ScanEnds(source: string, emitted: seq<Token>)
    requires Leaves(emitted, source[|source|..], Scan(source))
    ensures emitted == Scan(source)
  {
    assert source[|source|..] == "" && emitted + [] == emitted;
  }

  /** One iteration: the first pattern that matches decides. */
  method ParseStep(rest: string, before: seq<Token>, ghost emitted: seq<Token>) returns (tokens: seq<Token>, n: nat)
    requires rest != "" && before == Coalesce(emitted)
    ensures n == NextToken(rest).1 && tokens == Coalesce(emitted + NextToken(rest).0)
    decreases |rest|, 0
  {
    CoalesceSnoc(emitted, NextToken(rest).0);
    if rest[0] == '\\' && |rest| > 1 && IsEscapable(rest[1]) {
      tokens := AddText(before, [rest[1]]);
      return tokens, 2;
    }
    var code := Enclosed(rest, '`', IsCodeChar, '`');
    if code > 0 {
      return before + [Code(rest[1..code - 1])], code;
    }
    var strong := Doubled(rest, '*');
    if strong > 0 {
      var children := ParseInline(rest[2..strong - 2]);
      return before + [Strong(children)], strong;
    }
    var del := Doubled(rest, '~');
    if del > 0 {
      var children := ParseInline(rest[2..del - 2]);
      return before + [Del(children)], del;
    }
    var link := MatchLink(rest);
    if link.LinkMatch? {
      var children := ParseInline(link.caption);
      return before + [Link(link.href, link.title, children)], link.length;
    }
    var em := Enclosed(rest, '*', IsEmChar, '*');
    if em > 0 {
      var children := ParseInline(rest[1..em - 1]);
      return before + [Em(children)], em;
    }
    var auto := MatchAutolink(rest);
    if auto > 0 {
      return before + [Link(rest[1..auto - 1], "", [TextToken(rest[1..auto - 1])])], auto;
    }
    var url := MatchUrl(rest);
    if url > 0 {
      var href := TrimTail(rest[..url]);
      tokens := before + [Link(href, "", [TextToken(href)])];
      if |href| < url {
        tokens := AddText(tokens, rest[..url][|href|..]);
      }
      return tokens, url;
    }
    tokens := AddText(before, [rest[0]]);
    return tokens, 1;
  }

  /** Pushing the tokens of one step, of which there are at most two. */
  lemma CoalesceSnoc(ts: seq<Token>, more: seq<Token>)
    ensures |more| == 1 ==> Coalesce(ts + more) == Push(Coalesce(ts), more[0])
    ensures |more| == 2 ==> Coalesce(ts + more) == Push(Push(Coalesce(ts), more[0]), more[1])
  {
    if |more| == 1 {
      assert more == [more[0]];
      CoalescePush(ts, more[0]);
    } else if |more| == 2 {
      OneByOne(ts, more);
      CoalescePush(ts, more[0]);
      CoalescePush(ts + [more[0]], more[1]);
    }
  }

  lemma OneByOne(ts: seq<Token>, more: seq<Token>)
    requires |more| == 2
    ensures ts + more == ts + [more[0]] + [more[1]]
  {}

  lemma CoalescePush(ts: seq<Token>, t: Token)
    ensures Coalesce(ts + [t]) == Push(Coalesce(ts), t)
  {
    assert (ts + [t])[..|ts|] == ts;
  }

  // ---- visible text ----

  function Visible(ts: seq<Token>): string
    decreases ts
  {
    if ts == [] then "" else Shown(ts[0]) + Visible(ts[1..])
  }

  /** The text a reader sees. */
  function Shown(t: Token): string
    decreases t
  {
    match t
    case TextToken(v) => v
    case Code(c) => c
    case Strong(ts) => Visible(ts)
    case Del(ts) => Visible(ts)
    case Em(ts) => Visible(ts)
    case Link(_, _, ts) => Visible(ts)
  }

  lemma {:induction false} VisibleConcat(a: seq<Token>, b: seq<Token>)
    ensures Visible(a + b) == Visible(a) + Visible(b)
    decreases |a|
  {
    if a == [] {
      assert a + b == b;
    } else {
      assert (a + b)[1..] == a[1..] + b;
      VisibleConcat(a[1..], b);
    }
  }

  lemma VisibleOne(t: Token)
    ensures Visible([t]) == Shown(t)
  {
    assert [t][1..] == [];
    assert Shown(t) + "" == Shown(t);
  }

  lemma PushVisible(tokens: seq<Token>, t: Token)
    ensures Visible(Push(tokens, t)) == Visible(tokens) + Shown(t)
  {
    if !t.TextToken? {
      VisibleSnoc(tokens, t);
    } else if t.value == "" {
      assert Visible(tokens) + "" == Visible(tokens);
    } else if tokens != [] && tokens[|tokens| - 1].TextToken? {
      JoinedVisible(tokens[..|tokens| - 1], tokens[|tokens| - 1].value, t.value);
      assert tokens == tokens[..|tokens| - 1] + [TextToken(tokens[|tokens| - 1].value)];
    } else {
      VisibleSnoc(tokens, t);
    }
  }

  lemma VisibleSnoc(tokens: seq<Token>, t: Token)
    ensures Visible(tokens + [t]) == Visible(tokens) + Shown(t)
  {
    VisibleOne(t);
    VisibleConcat(tokens, [t]);
  }

  lemma VisibleLast(ts: seq<Token>)
    requires ts != []
    ensures Visible(ts) == Visible(ts[..|ts| - 1]) + Shown(ts[|ts| - 1])
  {
    VisibleSnoc(ts[..|ts| - 1], ts[|ts| - 1]);
    SplitLast(ts);
  }

  lemma JoinedVisible(init: seq<Token>, a: string, b: string)
    ensures Visible(init + [TextToken(a + b)]) == Visible(init + [TextToken(a)]) + b
  {
    VisibleSnoc(init, TextToken(a + b));
    VisibleSnoc(init, TextToken(a));
    assert Visible(init) + (a + b) == Visible(init) + a + b;
  }

  /** Joining neighbouring texts changes nothing a reader sees. */
  lemma {:induction false} CoalesceVisible(ts: seq<Token>)
    ensures Visible(Coalesce(ts)) == Visible(ts)
    decreases |ts|
  {
    if ts != [] {
      var init := ts[..|ts| - 1];
      CoalesceVisible(init);
      PushVisible(Coalesce(init), ts[|ts| - 1]);
      VisibleLast(ts);
    }
  }
}
