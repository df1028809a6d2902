/** Each Markdown construct is recognized for what it is (public/dominion-markdown.js). */
module MarkdownConstructs {
  import opened Sequences
  import opened Text
  import opened MarkdownInline
  import opened MarkdownLaws
  import opened MarkdownEscape
  import opened MarkdownBlocks
  import opened DocumentLaws

  /** A source that is one token. */
  lemma WholeToken(source: string, t: Token)
    requires source != "" && NextToken(source) == ([t], |source|)
    ensures Inline(source) == [t]
  {
    ScanUnfolds(source);
    ScanGood(source);
    assert source[|source|..] == "";
    assert [t] + [] == [t];
    assert [t][0] == t;
    assert Coalesce([]) == [] && [t][..0] == [];
  }

  /** The first token that is no text stays first, and whatever follows it shows. */
  lemma {:induction false} FirstTokenStays(ts: seq<Token>)
    requires ts != [] && forall k | 0 <= k < |ts| :: GoodToken(ts[k])
    ensures Coalesce(ts) != []
    ensures if ts[0].TextToken? then Coalesce(ts)[0].TextToken? else Coalesce(ts)[0] == ts[0]
    ensures !ts[0].TextToken? && |ts| > 1 ==> |Coalesce(ts)| > 1
    decreases |ts|
  {
    var init := ts[..|ts| - 1];
    if init != [] {
      FirstTokenStays(init);
    }
  }

  /** What the first step over a source leaves of it. */
  lemma FirstStep(source: string, t: Token, n: nat)
    requires source != "" && NextToken(source) == ([t], n)
    ensures var ts := Inline(source);
            && ts != [] && (if t.TextToken? then ts[0].TextToken? else ts[0] == t)
            && (!t.TextToken? && n < |source| ==> |ts| > 1)
  {
    ScanUnfolds(source);
    ScanGood(source);
    ScanGood(source[n..]);
    FirstTokenStays(Scan(source));
  }

  // ---- escaped text between marks ----

  /** Every escapable character of an escaped text stands behind a backslash. */
  lemma {:induction false} MarksAreEscaped(s: string, d: char)
    requires IsEscapable(d) && d != '\\'
    ensures forall k | 0 <= k < |Escape(s)| && Escape(s)[k] == d :: k > 0 && Escape(s)[k - 1] == '\\'
  {
    if s != "" {
      MarksAreEscaped(s[1..], d);
      var head, rest := Head(s[0]), Escape(s[1..]);
      assert Escape(s) == head + rest;
      forall k | 0 <= k < |Escape(s)| && Escape(s)[k] == d
        ensures k > 0 && Escape(s)[k - 1] == '\\'
      {
        if k >= |head| { assert rest[k - |head|] == d; }
      }
    }
  }

  lemma {:induction false} EscapeEnds(s: string)
    ensures |Escape(s)| >= |s|
    ensures s != "" ==> Escape(s)[|Escape(s)| - 1] == s[|s| - 1]
    ensures s != "" ==> Escape(s)[0] == if IsEscapable(s[0]) then '\\' else s[0]
  {
    if s != "" { EscapeEnds(s[1..]); }
  }

  lemma {:induction false} EscapeKeepsChar(s: string, c: char)
    requires c != '\\'
    ensures c in Escape(s) <==> c in s
  {
    if s != "" {
      EscapeKeepsChar(s[1..], c);
      SplitFirst(s);
      assert Escape(s) == Head(s[0]) + Escape(s[1..]);
    }
  }

  function Between(d: char, s: string): string { [d, d] + Escape(s) + [d, d] }

  /** Before the end of an escaped text no pair of marks closes. */
  lemma ClosesOnlyAtEnd(s: string, d: char, n: nat)
    requires IsEscapable(d) && d != '\\' && 5 <= n < |Between(d, s)| - 1
    ensures !ClosesAt(Between(d, s), d, n)
  {
    MarksAreEscaped(s, d);
    var e, source := Escape(s), Between(d, s);
    assert source[n - 2] == e[n - 4] && source[n - 1] == e[n - 3];
  }

  /** Where the lazy match ends: one character early when the text ends in the mark. */
  lemma DoubledLength(s: string, d: char)
    requires IsEscapable(d) && d != '\\'
    ensures Doubled(Between(d, s), d) ==
            if s == "" || IsSpace(s[0]) then 0
            else if s[|s| - 1] == d then |Between(d, s)| - 1
            else if IsSpace(s[|s| - 1]) then 0 else |Between(d, s)|
  {
    var e, source := Escape(s), Between(d, s);
    EscapeEnds(s);
    if s != "" {
      assert source[2] == e[0] && source[|e| + 1] == e[|e| - 1];
      assert source[|e| + 2] == d && source[|e| + 3] == d;
      MarksAreEscaped(s, d);
      if s[|s| - 1] == d { assert source[|e|] == e[|e| - 2] == '\\'; }
      forall n | 5 <= n < |source| - 1
        ensures !ClosesAt(source, d, n)
      {
        ClosesOnlyAtEnd(s, d, n);
      }
      var r := FirstClose(source, d, 5);
      assert ClosesAt(source, d, |source| - 1) <==> s[|s| - 1] == d;
      if s[|s| - 1] != d { assert ClosesAt(source, d, |source|) <==> !IsSpace(s[|s| - 1]); }
    }
  }

  predicate IsDoubledMark(d: char) { d == '*' || d == '~' }

  function DoubledToken(d: char, children: seq<Token>): Token {
    if d == '*' then Strong(children) else Del(children)
  }

  lemma DoubledStep(source: string, d: char)
    requires IsDoubledMark(d) && |source| >= 2 && source[0] == source[1] == d
    ensures var n := Doubled(source, d);
            NextToken(source) ==
            if n > 0 then ([DoubledToken(d, Inline(source[2..n - 2]))], n) else ([TextToken([d])], 1)
  {}

  /**
   Escaped text between doubled marks comes back whole exactly when it is nonempty, holds no url the
   parser links, has no whitespace at its ends and does not end in the mark itself.
   */
  lemma DoubledRoundTripExactly(s: string, d: char)
    requires IsDoubledMark(d)
    ensures Inline(Between(d, s)) == [DoubledToken(d, [TextToken(s)])]
            <==> s != "" && !IsSpace(s[0]) && !IsSpace(s[|s| - 1]) && s[|s| - 1] != d && !HasLink(s)
  {
    var source := Between(d, s);
    DoubledLength(s, d);
    DoubledStep(source, d);
    FirstStep(source, NextToken(source).0[0], NextToken(source).1);
    if Doubled(source, d) == |source| {
      assert source[2..|source| - 2] == Escape(s);
      WholeToken(source, DoubledToken(d, Inline(Escape(s))));
      EscapeRoundTripExactly(s);
    }
  }

  lemma StrongRoundTripExactly(s: string)
    ensures Inline("**" + Escape(s) + "**") == [Strong([TextToken(s)])]
            <==> s != "" && !IsSpace(s[0]) && !IsSpace(s[|s| - 1]) && s[|s| - 1] != '*' && !HasLink(s)
  {
    assert "**" + Escape(s) + "**" == Between('*', s);
    DoubledRoundTripExactly(s, '*');
  }

  lemma DelRoundTripExactly(s: string)
    ensures Inline("~~" + Escape(s) + "~~") == [Del([TextToken(s)])]
            <==> s != "" && !IsSpace(s[0]) && !IsSpace(s[|s| - 1]) && s[|s| - 1] != '~' && !HasLink(s)
  {
    assert "~~" + Escape(s) + "~~" == Between('~', s);
    DoubledRoundTripExactly(s, '~');
  }

  lemma EnclosedWhole(s: string, open: char, p: char -> bool, close: char, rest: string)
    requires s != "" && (forall k | 0 <= k < |s| :: p(s[k])) && !p(close)
    ensures Enclosed([open] + s + [close] + rest, open, p, close) == |s| + 2
  {
    var source := [open] + s + [close] + rest;
    var tail := source[1..];
    assert forall k | 0 <= k < |s| :: tail[k] == s[k];
    assert tail[|s|] == close;
    RunLengthUnique(p, tail, |s|);
  }

  /** A character the pattern refuses ends the match before the text does. */
  lemma EnclosedShort(s: string, open: char, p: char -> bool, close: char, rest: string)
    requires s == "" || exists k :: 0 <= k < |s| && !p(s[k])
    requires !p(close)
    ensures Enclosed([open] + s + [close] + rest, open, p, close) < |s| + 2
  {
    var source := [open] + s + [close] + rest;
    assert source[|s| + 1] == close;
    assert forall k | 0 <= k < |s| :: s[k] == source[k + 1];
  }

  /**
   Escaped text between stars comes back as one emphasis exactly when it is a nonempty line without
   stars and without a url the parser links.
   */
  lemma EmRoundTripExactly(s: string)
    ensures Inline("*" + Escape(s) + "*") == [Em([TextToken(s)])]
            <==> s != "" && '*' !in s && '\n' !in s && !HasLink(s)
  {
    var e, source := Escape(s), "*" + Escape(s) + "*";
    EscapeEnds(s);
    EmStep(e, source);
    EmLength(s, source);
    FirstStep(source, NextToken(source).0[0], NextToken(source).1);
    if Enclosed(source, '*', IsEmChar, '*') == |source| {
      WholeEm(e, source);
      EscapeRoundTripExactly(s);
    }
  }

  lemma EmLength(s: string, source: string)
    requires source == "*" + Escape(s) + "*"
    ensures Enclosed(source, '*', IsEmChar, '*') == |source| <==> s != "" && '*' !in s && '\n' !in s
  {
    var e := Escape(s);
    assert source == ['*'] + e + ['*'] + "";
    EscapeEnds(s);
    EscapeKeepsChar(s, '*');
    EscapeKeepsChar(s, '\n');
    if s != "" && '*' !in s && '\n' !in s {
      EnclosedWhole(e, '*', IsEmChar, '*', "");
    } else {
      EnclosedShort(e, '*', IsEmChar, '*', "");
    }
  }

  lemma WholeEm(e: string, source: string)
    requires source == "*" + e + "*" && NextToken(source) == ([Em(Inline(source[1..|source| - 1]))], |source|)
    ensures Inline(source) == [Em(Inline(e))]
  {
    assert source[1..|source| - 1] == e;
    WholeToken(source, Em(Inline(e)));
  }

  lemma EmStep(e: string, source: string)
    requires source == "*" + e + "*" && (e != "" ==> e[0] != '*')
    ensures var n := Enclosed(source, '*', IsEmChar, '*');
            NextToken(source) == if n > 0 then ([Em(Inline(source[1..n - 1]))], n) else ([TextToken("*")], 1)
  {
    assert e != "" ==> source[1] == e[0];
  }

  /** Backticks give the text back as code exactly when it is a nonempty line without backticks. */
  lemma CodeRoundTripExactly(s: string)
    ensures Inline("`" + s + "`") == [Code(s)] <==> s != "" && '`' !in s && '\n' !in s
  {
    var source := "`" + s + "`";
    if s != "" && '`' !in s && '\n' !in s {
      EnclosedWhole(s, '`', IsCodeChar, '`', "");
      assert source == ['`'] + s + ['`'] + "";
      assert source[1..|source| - 1] == s;
      WholeToken(source, Code(s));
    }
    NormalForm(source);
    if Inline(source) == [Code(s)] {
      assert GoodToken(Inline(source)[0]);
    }
  }

  predicate IsHref(href: string) {
    href != "" && forall k | 0 <= k < |href| :: href[k] != ')' && !IsSpace(href[k])
  }

  /**
   An escaped caption and an href come back as one link exactly when the caption is a nonempty line
   without closing brackets and without a url the parser links, and the href is nonempty and holds
   neither whitespace nor a closing parenthesis.
   */
  lemma LinkRoundTripExactly(s: string, href: string)
    ensures Inline("[" + Escape(s) + "](" + href + ")") == [Link(href, "", [TextToken(s)])]
            <==> s != "" && ']' !in s && '\n' !in s && !HasLink(s) && IsHref(href)
  {
    var e, source := Escape(s), "[" + Escape(s) + "](" + href + ")";
    EscapeEnds(s);
    EscapeKeepsChar(s, ']');
    EscapeKeepsChar(s, '\n');
    LinkStep(source);
    LinkCaption(s, href, source);
    FirstStep(source, NextToken(source).0[0], NextToken(source).1);
    if s != "" && ']' !in s && '\n' !in s {
      EscapeRoundTripExactly(s);
      if IsHref(href) {
        LinkMatches(e, href, source);
        WholeToken(source, Link(href, "", Inline(e)));
      }
    }
  }

  lemma LinkStep(source: string)
    requires source != "" && source[0] == '['
    ensures var m := MatchLink(source);
            NextToken(source) ==
            if m.LinkMatch? then ([Link(m.href, m.title, Inline(m.caption))], m.length) else ([TextToken("[")], 1)
  {}

  /** A match takes the whole escaped caption, and none starts when the caption breaks the pattern. */
  lemma LinkCaption(s: string, href: string, source: string)
    requires source == "[" + Escape(s) + "](" + href + ")"
    ensures var m := MatchLink(source);
            m.LinkMatch? ==> s != "" && ']' !in s && '\n' !in s && m.caption == Escape(s) && IsHref(m.href)
  {
    CaptionEnds(s, href, source);
    LinkParts(source);
    assert source[1..|Escape(s)| + 1] == Escape(s);
  }

  lemma LinkParts(source: string)
    ensures var m, n := MatchLink(source), Enclosed(source, '[', IsLabelChar, ']');
            m.LinkMatch? ==> 0 < n < |source| && source[n] == '(' && m.caption == source[1..n - 1] && IsHref(m.href)
  {
    var n := Enclosed(source, '[', IsLabelChar, ']');
    if 0 < n < |source| && source[n] == '(' {
      var e := HrefEnd(source, n + 1);
      assert e > n + 1 ==> IsHref(source[n + 1..e]);
    }
  }

  /** The bracketed part is the whole escaped caption, or what follows it opens no href. */
  lemma CaptionEnds(s: string, href: string, source: string)
    requires source == "[" + Escape(s) + "](" + href + ")"
    ensures var n := Enclosed(source, '[', IsLabelChar, ']');
            if s != "" && ']' !in s && '\n' !in s then n == |Escape(s)| + 2
            else n == 0 || source[n] != '('
  {
    var e, rest := Escape(s), "(" + href + ")";
    assert source == ['['] + e + [']'] + rest;
    CaptionLength(s, rest);
    if !(s != "" && ']' !in s && '\n' !in s) {
      assert "[" + e + "](" <= source;
      CutCaption(s, source, Enclosed(source, '[', IsLabelChar, ']'));
    }
  }

  lemma CaptionLength(s: string, rest: string)
    ensures var n := Enclosed(['['] + Escape(s) + [']'] + rest, '[', IsLabelChar, ']');
            if s != "" && ']' !in s && '\n' !in s then n == |Escape(s)| + 2 else n < |Escape(s)| + 2
  {
    EscapeEnds(s);
    EscapeKeepsChar(s, ']');
    EscapeKeepsChar(s, '\n');
    if s != "" && ']' !in s && '\n' !in s {
      EnclosedWhole(Escape(s), '[', IsLabelChar, ']', rest);
    } else {
      EnclosedShort(Escape(s), '[', IsLabelChar, ']', rest);
    }
  }

  /** Inside the caption no bracket is followed by an opening parenthesis. */
  lemma CutCaption(s: string, source: string, n: nat)
    requires "[" + Escape(s) + "](" <= source && n < |Escape(s)| + 2
    requires n > 0 ==> n >= 3 && source[n - 1] == ']'
    ensures n > 0 ==> source[n] != '('
  {
    if n > 0 {
      MarksAreEscaped(s, '(');
      var e := Escape(s);
      var start := "[" + e + "](";
      assert source[n - 1] == start[n - 1] == e[n - 2];
      assert source[n] == start[n] == if n - 1 < |e| then e[n - 1] else ']';
    }
  }

  lemma LinkMatches(s: string, href: string, source: string)
    requires s != "" && (forall k | 0 <= k < |s| :: IsLabelChar(s[k])) && IsHref(href)
    requires source == "[" + s + "](" + href + ")"
    ensures MatchLink(source) == LinkMatch(s, href, "", |source|)
  {
    EnclosedWhole(s, '[', IsLabelChar, ']', "(" + href + ")");
    assert source == ['['] + s + [']'] + ("(" + href + ")");
    var h := |s| + 3;
    assert source[h - 1] == '(' && source[1..|s| + 1] == s;
    HrefEndsAtParen(source, h, href);
  }

  lemma HrefEndsAtParen(source: string, h: nat, href: string)
    requires h <= |source| && source[h..] == href + ")" && IsHref(href)
    ensures HrefEnd(source, h) == |source| - 1 && source[|source| - 1] == ')' && source[h..|source| - 1] == href
  {
    var rest := source[h..];
    assert rest[|href|] == ')' && rest[..|href|] == href;
    assert source[|source| - 1] == rest[|href|] && source[h..|source| - 1] == rest[..|href|];
    forall k | h <= k < |source| - 1
      ensures IsHrefChar(source[k])
    {
      assert source[k] == rest[k - h] == href[k - h];
    }
  }

  /** A backslash in front of a character makes it text exactly for these twelve. */
  lemma BackslashExactly(c: char)
    ensures Inline(['\\', c]) == [TextToken([c])] <==> c in "\\`*[]()~#>+-"
  {
    var source := ['\\', c];
    if IsEscapable(c) {
      WholeToken(source, TextToken([c]));
    } else {
      assert NextToken(source) == ([TextToken("\\")], 1);
      ScanUnfolds(source);
      VisibleOne(TextToken("\\"));
      VisibleConcat([TextToken("\\")], Scan(source[1..]));
      CoalesceVisible(Scan(source));
      VisibleOne(TextToken([c]));
      assert Visible(Inline(source))[0] == '\\';
    }
  }

  // ---- titles and urls ----

  function TitleText(title: string): string { " \"" + title + "\")" }

  lemma TitledMatches(s: string, href: string, title: string, rest: string, source: string)
    requires s != "" && (forall k | 0 <= k < |s| :: IsLabelChar(s[k])) && IsHref(href) && '"' !in title
    requires rest == TitleText(title) && source == "[" + s + "](" + href + rest
    ensures MatchLink(source) == LinkMatch(s, href, title, |source|)
  {
    TitledParts(s, href, rest, source);
    TitledFrom(s, href, title, rest, source, |s| + 3);
  }

  lemma TitledFrom(s: string, href: string, title: string, rest: string, source: string, h: nat)
    requires 2 < h && Enclosed(source, '[', IsLabelChar, ']') == h - 1 && h + |href| < |source| && source[h - 1] == '('
    requires source[1..h - 2] == s && source[h..h + |href|] == href && source[h + |href|..] == rest
    requires IsHref(href) && '"' !in title && rest == TitleText(title)
    ensures MatchLink(source) == LinkMatch(s, href, title, |source|)
  {
    var e := h + |href|;
    HrefEndsAtSpace(source, h, href, rest);
    TitleReads(source, e, title, rest);
    TitledReads(source, s, href, title, h, e);
  }

  lemma TitledParts(s: string, href: string, rest: string, source: string)
    requires s != "" && (forall k | 0 <= k < |s| :: IsLabelChar(s[k])) && rest != ""
    requires source == "[" + s + "](" + href + rest
    ensures var h := |s| + 3;
            && Enclosed(source, '[', IsLabelChar, ']') == h - 1 && h + |href| < |source| && source[h - 1] == '('
            && source[1..h - 2] == s && source[h..h + |href|] == href && source[h + |href|..] == rest
  {
    EnclosedWhole(s, '[', IsLabelChar, ']', "(" + href + rest);
    assert source == ['['] + s + [']'] + ("(" + href + rest);
  }

  /** The link pattern once its parts are found: the href from `h` to `e`, then the title. */
  lemma TitledReads(source: string, s: string, href: string, title: string, h: nat, e: nat)
    requires 2 < h < e < |source| && e + 4 + |title| == |source|
    requires Enclosed(source, '[', IsLabelChar, ']') == h - 1 && source[h - 1] == '(' && source[1..h - 2] == s
    requires HrefEnd(source, h) == e && source[h..e] == href
    requires source[e] == ' ' && RunLength(IsSpace, source[e..]) == 1 && source[e + 1] == '"'
    requires RunLength(IsTitleChar, source[e + 2..]) == |title| && source[e + 2..e + 2 + |title|] == title
    requires source[|source| - 1] == ')'
    ensures MatchLink(source) == LinkMatch(s, href, title, |source|)
  {}

  lemma HrefEndsAtSpace(source: string, h: nat, href: string, rest: string)
    requires h + |href| < |source| && source[h..h + |href|] == href && source[h + |href|..] == rest
    requires IsHref(href) && rest[0] == ' '
    ensures HrefEnd(source, h) == h + |href|
  {
    forall k | h <= k < h + |href|
      ensures IsHrefChar(source[k])
    {
      assert source[k] == source[h..h + |href|][k - h] == href[k - h];
    }
    assert source[h + |href|] == rest[0];
  }

  /** The gap, the opening quote and the title behind an href. */
  lemma TitleReads(source: string, e: nat, title: string, rest: string)
    requires e < |source| && source[e..] == rest == TitleText(title) && '"' !in title
    ensures RunLength(IsSpace, source[e..]) == 1 && e + 1 < |source| && source[e] == ' ' && source[e + 1] == '"'
    ensures RunLength(IsTitleChar, source[e + 2..]) == |title| && source[e + 2..e + 2 + |title|] == title
    ensures e + 2 + |title| + 2 == |source| && source[|source| - 1] == ')'
  {
    assert rest[0] == ' ' && rest[1] == '"' && rest[|rest| - 1] == ')';
    RunLengthUnique(IsSpace, rest, 1);
    var body := title + "\")";
    assert source[e + 2..] == rest[2..] == body;
    assert body[|title|] == '"' && forall k | 0 <= k < |title| :: body[k] == title[k];
    RunLengthUnique(IsTitleChar, body, |title|);
    assert source[e + 2..e + 2 + |title|] == body[..|title|] == title;
  }

  /** A caption, an href and a title without quotation marks come back as one link with that title. */
  lemma TitledLinkRoundTrip(s: string, href: string, title: string)
    requires s != "" && ']' !in s && '\n' !in s && !HasLink(s) && IsHref(href) && '"' !in title
    ensures Inline("[" + Escape(s) + "](" + href + TitleText(title)) == [Link(href, title, [TextToken(s)])]
  {
    var e, source := Escape(s), "[" + Escape(s) + "](" + href + TitleText(title);
    EscapeEnds(s);
    EscapeKeepsChar(s, ']');
    EscapeKeepsChar(s, '\n');
    EscapeRoundTripExactly(s);
    LinkStep(source);
    TitledMatches(e, href, title, TitleText(title), source);
    WholeToken(source, Link(href, title, Inline(e)));
  }

  lemma NoOtherMark(source: string)
    requires source != "" && (source[0] == 'h' || source[0] == '<')
    ensures NextToken(source) == LinkOrText(source) && MatchLink(source).NoLink?
    ensures Enclosed(source, '*', IsEmChar, '*') == 0
  {}

  predicate HasScheme(url: string) { "http://" <= url || "https://" <= url }

  function SchemeEnd(url: string): nat { if "https://" <= url then 8 else 7 }

  lemma SchemeIs(url: string)
    requires HasScheme(url)
    ensures SchemeLength(url) == SchemeEnd(url) && |url| >= SchemeEnd(url) && url[0] == 'h'
  {
    if "http://" <= url { assert url[4] == ':'; }
    if "https://" <= url { assert url[4] == 's'; }
  }

  /** A scheme and at least one more character, none of them whitespace or `>`. */
  predicate IsAutoUrl(url: string) {
    && HasScheme(url) && |url| > SchemeEnd(url)
    && forall k | SchemeEnd(url) <= k < |url| :: url[k] != '>' && !IsSpace(url[k])
  }

  /** A url in angle brackets is one link to itself. */
  lemma AutolinkRoundTrip(url: string)
    requires IsAutoUrl(url)
    ensures Inline("<" + url + ">") == [Link(url, "", [TextToken(url)])]
  {
    var source := "<" + url + ">";
    NoOtherMark(source);
    AutolinkMatches(url, source);
    assert source[1..|source| - 1] == url;
    WholeToken(source, Link(url, "", [TextToken(url)]));
  }

  lemma AutolinkMatches(url: string, source: string)
    requires IsAutoUrl(url) && source == "<" + url + ">"
    ensures MatchAutolink(source) == |source|
  {
    var m := SchemeLength(url);
    SchemeIs(url);
    assert source[1..] == url + ">";
    SchemeStays(url, ">");
    var tail := source[1 + m..];
    assert tail == url[m..] + ">";
    assert forall k | 0 <= k < |url| - m :: tail[k] == url[m + k];
    RunLengthUnique(IsAutoChar, tail, |url| - m);
  }

  lemma SchemeStays(url: string, more: string)
    requires SchemeLength(url) > 0
    ensures SchemeLength(url + more) == SchemeLength(url)
  {
    var s := url + more;
    assert s[..|url|] == url;
    if "http://" <= url {
      assert s[..7] == url[..7];
    } else {
      assert s[..8] == url[..8];
      assert s[4] == 's';
    }
  }

  /** A scheme and at least one more character, none of them whitespace or `<`. */
  predicate IsBareUrl(found: string) {
    && HasScheme(found) && |found| > SchemeEnd(found)
    && forall k | SchemeEnd(found) <= k < |found| :: found[k] != '<' && !IsSpace(found[k])
  }

  lemma {:induction false} TailTrims(url: string, tail: string)
    requires url != "" && !IsTailChar(url[|url| - 1]) && forall k | 0 <= k < |tail| :: IsTailChar(tail[k])
    ensures TrimTail(url + tail) == url
    decreases |tail|
  {
    if tail == "" {
      assert url + tail == url;
    } else {
      var init := tail[..|tail| - 1];
      TailTrims(url, init);
      assert (url + tail)[..|url + tail| - 1] == url + init;
    }
  }

  /**
   A bare url is one link to itself without the punctuation that trails it, and that punctuation
   follows as text.
   */
  lemma BareUrlRoundTrip(url: string, tail: string)
    requires IsBareUrl(url + tail) && url != "" && url[|url| - 1] !in "),.;:!?"
    requires forall k | 0 <= k < |tail| :: tail[k] in "),.;:!?"
    ensures Inline(url + tail) == [Link(url, "", [TextToken(url)])] + if tail == "" then [] else [TextToken(tail)]
  {
    var source := url + tail;
    BareUrlStep(source);
    TailTrims(url, tail);
    assert source[|url|..] == tail;
    UrlCoalesces(source, Link(url, "", [TextToken(url)]), tail);
  }

  lemma BareUrlStep(source: string)
    requires IsBareUrl(source)
    ensures NextToken(source) == (UrlTokens(source), |source|)
  {
    UrlMatches(source);
    NoOtherMark(source);
    assert source[..|source|] == source;
  }

  lemma UrlMatches(source: string)
    requires IsBareUrl(source)
    ensures MatchUrl(source) == |source| && source[0] == 'h'
  {
    var m := SchemeLength(source);
    SchemeIs(source);
    var tail := source[m..];
    assert forall k | 0 <= k < |tail| :: tail[k] == source[m + k];
    RunLengthUnique(IsUrlChar, tail, |tail|);
  }

  lemma UrlCoalesces(source: string, link: Token, tail: string)
    requires source != "" && link.Link?
    requires NextToken(source) == ([link] + if tail == "" then [] else [TextToken(tail)], |source|)
    ensures Inline(source) == [link] + if tail == "" then [] else [TextToken(tail)]
  {
    if tail == "" {
      assert [link] + [] == [link];
      WholeToken(source, link);
    } else {
      assert [link] + [TextToken(tail)] == [link, TextToken(tail)];
      TwoTokens(source, link, TextToken(tail));
    }
  }

  /** A source that is two tokens, the first of them no text. */
  lemma TwoTokens(source: string, a: Token, b: Token)
    requires source != "" && NextToken(source) == ([a, b], |source|) && !a.TextToken?
    requires b.TextToken? && b.value != ""
    ensures Inline(source) == [a, b]
  {
    ScanIs(source, [a, b]);
    assert [a, b][..1] == [a] && [a][..0] == [];
    assert Coalesce([a]) == [a];
  }

  lemma ScanIs(source: string, ts: seq<Token>)
    requires source != "" && NextToken(source) == (ts, |source|)
    ensures Scan(source) == ts
  {
    ScanUnfolds(source);
    assert source[|source|..] == "";
    assert ts + [] == ts;
  }

  // ---- quotes ----

  /** Up to three spaces, `>`, and one more space unless the text starts solid. */
  ghost predicate IsQuoteMark(mark: string, l: string) {
    exists w :: AllSpace(w) && |w| <= 3 && QuoteMarkAfter(w, mark, l)
  }

  predicate QuoteMarkAfter(w: string, mark: string, l: string) {
    mark == w + "> " || (mark == w + ">" && (l == "" || !IsSpace(l[0])))
  }

  function QuoteLines(marks: seq<string>, ls: seq<string>): (r: seq<string>)
    requires |marks| == |ls|
    ensures |r| == |ls| && forall k | 0 <= k < |r| :: r[k] == marks[k] + ls[k]
  {
    seq(|ls|, k requires 0 <= k < |ls| => marks[k] + ls[k])
  }

  /** Whitespace before a line that starts solid. */
  lemma Indented(w: string, s: string)
    requires AllSpace(w) && s != "" && !IsSpace(s[0])
    ensures Lead(w + s) == |w| && (w + s)[|w|..] == s && Trim(w + s) == Trim(s)
  {
    RunLengthUnique(IsSpace, w + s, |w|);
    TrimAround(w, s, "");
    assert w + s + "" == w + s;
  }

  /** What a quote line is: its text behind the mark. */
  lemma QuoteLine(mark: string, l: string)
    requires IsQuoteMark(mark, l)
    ensures var line := mark + l;
            && IsQuote(line) && StripQuote(line) == l && !Blank(line) && Lead(line) < |line| && line[Lead(line)] == '>'
            && !IsTableDivider(line)
  {
    var w :| AllSpace(w) && |w| <= 3 && QuoteMarkAfter(w, mark, l);
    var rest := (if mark == w + "> " then "> " else ">") + l;
    assert mark + l == w + rest;
    assert rest == "> " + l || (rest == ">" + l && (l == "" || !IsSpace(l[0])));
    QuoteLineAfter(w, rest, l);
  }

  lemma QuoteLineAfter(w: string, rest: string, l: string)
    requires AllSpace(w) && |w| <= 3
    requires rest == "> " + l || (rest == ">" + l && (l == "" || !IsSpace(l[0])))
    ensures var line := w + rest;
            && IsQuote(line) && StripQuote(line) == l && !Blank(line) && Lead(line) < |line| && line[Lead(line)] == '>'
            && !IsTableDivider(line)
  {
    Indented(w, rest);
    NotBlank(w + rest, |w|);
    QuoteText(w, rest, l);
    QuoteRestIsNoDivider(w + rest, rest);
  }

  lemma QuoteText(w: string, rest: string, l: string)
    requires AllSpace(w) && |w| <= 3 && Lead(w + rest) == |w|
    requires rest == "> " + l || (rest == ">" + l && (l == "" || !IsSpace(l[0])))
    ensures IsQuote(w + rest) && StripQuote(w + rest) == l
  {
    var line := w + rest;
    assert line[|w|..] == rest;
    if rest == "> " + l {
      assert line[|w| + 1] == rest[1] == ' ' && line[|w| + 2..] == rest[2..] == l;
    } else {
      assert line[|w| + 1..] == rest[1..] == l;
    }
  }

  lemma QuoteRestIsNoDivider(line: string, rest: string)
    requires rest != "" && rest[0] == '>' && Trim(line) == Trim(rest)
    ensures !IsTableDivider(line)
  {
    TrimKeepsFirst(rest);
    var body := RowBody(line);
    assert body != "" && body[0] == '>';
    var first := Split(body, '|')[0];
    assert first[0] == '>';
    FirstCellKept(first);
  }

  lemma FirstCellKept(cell: string)
    requires cell != "" && cell[0] == '>'
    ensures !IsDividerCell(Trim(Trim(cell)))
  {
    TrimKeepsFirst(cell);
    TrimKeepsFirst(Trim(cell));
  }

  lemma TrimKeepsFirst(s: string)
    requires s != "" && !IsSpace(s[0])
    ensures Trim(s) != "" && Trim(s)[0] == s[0]
  {
    var lo, hi := TrimIsSlice(s);
  }

  lemma QuoteLineKind(lines: seq<string>)
    requires lines != [] && IsQuote(lines[0]) && (|lines| > 1 ==> !IsTableDivider(lines[1]))
    ensures KindAt(lines, 0) == QuoteKind
  {
    QuoteOpensNothing(lines[0]);
  }

  lemma QuoteOpensNothing(line: string)
    requires Lead(line) < |line| && line[Lead(line)] == '>'
    ensures !IsFence(line) && MatchHeading(line).NoHeading? && !IsRule(line) && !StartsList(line)
  {
    var s := line[Lead(line)..];
    assert s[0] == '>';
    RunLengthUnique(IsDigit, s, 0);
    RunLengthUnique(IsDash, s, 0);
    RunLengthUnique(IsStar, s, 0);
    RunLengthUnique(IsUnderscore, s, 0);
  }

  lemma {:induction false} QuoteRunsOn(lines: seq<string>, i: nat)
    requires i <= |lines| && forall k | i <= k < |lines| :: IsQuote(lines[k])
    ensures RunEnd(lines, i, InQuote) == |lines|
    decreases |lines| - i
  {
    if i < |lines| { QuoteRunsOn(lines, i + 1); }
  }

  /** Quoting any lines and parsing gives one quote with the inline parse of those lines. */
  lemma QuoteRoundTrip(marks: seq<string>, ls: seq<string>)
    requires ls != [] && |marks| == |ls| && forall k | 0 <= k < |ls| :: IsQuoteMark(marks[k], ls[k])
    ensures ParseFrom(QuoteLines(marks, ls), 0) == Finished([Placed(Quote(Inline(Join(ls, '\n'))), 0, |ls|)])
  {
    var lines := QuoteLines(marks, ls);
    forall k | 0 <= k < |lines|
      ensures IsQuote(lines[k]) && StripQuote(lines[k]) == ls[k] && !Blank(lines[k]) && !IsTableDivider(lines[k])
    {
      QuoteLine(marks[k], ls[k]);
    }
    QuoteLineKind(lines);
    QuoteRunsOn(lines, 0);
    var end := QuoteAt(lines, 0);
    QuoteAsOne(lines, ls);
    OneBlock(lines, BlockAt(lines, 0));
  }

  /** A document that is one block. */
  lemma OneBlock(lines: seq<string>, p: Placed)
    requires lines != [] && !Blank(lines[0]) && p == BlockAt(lines, 0) && p.to == |lines|
    ensures ParseFrom(lines, 0) == Finished([p])
  {
    ParseFirst(lines, 0, p);
    ParseEnd(lines);
    assert [p] + [] == [p];
  }

  lemma QuoteAsOne(lines: seq<string>, ls: seq<string>)
    requires |lines| == |ls| > 0 && forall k | 0 <= k < |lines| :: IsQuote(lines[k]) && StripQuote(lines[k]) == ls[k]
    ensures QuoteBlock(lines, 0, |lines|) == Placed(Quote(Inline(Join(ls, '\n'))), 0, |ls|)
  {
    assert lines[0..|lines|] == lines;
    assert Quoted(lines) == ls;
  }

  // ---- headings ----

  function Hashes(n: nat): (s: string)
    ensures |s| == n && forall k | 0 <= k < n :: s[k] == '#'
  {
    seq(n, _ => '#')
  }

  /** An indent, hashes, a space and a text. */
  function HeadingLine(w: string, level: nat, s: string): string { w + (Hashes(level) + " " + s) }

  predicate IsTailMark(c: char) { IsSpace(c) || IsHash(c) }

  lemma TailHoldsMarks(s: string)
    requires s != "" && !IsTailMark(s[|s| - 1])
    ensures !HeadingTail(s)
  {
    var a := RunLength(IsSpace, s);
    var b := a + RunLength(IsHash, s[a..]);
    assert s[a..][|s| - 1 - a] == s[|s| - 1];
    assert s[b..][|s| - 1 - b] == s[|s| - 1];
  }

  lemma MarkIsTail(c: char)
    requires IsTailMark(c)
    ensures HeadingTail([c])
  {
    if IsSpace(c) {
      RunLengthUnique(IsSpace, [c], 1);
    } else {
      RunLengthUnique(IsSpace, [c], 0);
      assert [c][0..] == [c];
      RunLengthUnique(IsHash, [c], 1);
    }
  }

  /** Without a trailing space or hash the lazy capture runs to the end of the line. */
  lemma CaptureRunsOut(line: string, p: nat)
    requires p < |line| && forall k | p <= k < |line| :: !IsTerminator(line[k])
    requires p + 1 == |line| || !IsTailMark(line[|line| - 1])
    ensures HeadingEnd(line, p) == |line|
  {
    forall j | p + 1 <= j < |line|
      ensures !HeadingTail(line[j..])
    {
      TailHoldsMarks(line[j..]);
    }
    assert line[|line|..] == "";
    EmptyTail();
    LazyEndIs(line, p + 1, HeadingTail, |line|);
  }

  lemma EmptyTail()
    ensures HeadingTail("")
  {}

  lemma CaptureStopsShort(line: string, p: nat)
    requires p + 1 < |line| && IsTailMark(line[|line| - 1])
    ensures HeadingEnd(line, p) < |line|
  {
    var m := |line| - 1;
    MarkIsTail(line[m]);
    assert line[m..] == [line[m]];
    LazyEndAtMost(line, p + 1, HeadingTail, m);
  }

  lemma HashesRead(level: nat, s: string)
    requires 1 <= level && s != "" && !IsSpace(s[0])
    ensures var core := Hashes(level) + " " + s;
            && core[0] == '#' && RunLength(IsHash, core) == level && RunLength(IsSpace, core[level..]) == 1
            && core[level + 1..] == s
  {
    var core := Hashes(level) + " " + s;
    assert core[level] == ' ' && core[level + 1] == s[0];
    RunLengthUnique(IsHash, core, level);
    RunLengthUnique(IsSpace, core[level..], 1);
  }

  /** An indent of `w`, `level` hashes and a gap of one, with something behind it. */
  predicate HeadingShape(line: string, w: nat, level: nat) {
    && Lead(line) == w && w + level + 1 < |line|
    && RunLength(IsHash, line[w..]) == level && RunLength(IsSpace, line[w + level..]) == 1
  }

  lemma HeadingParts(w: string, level: nat, s: string)
    requires AllSpace(w) && 1 <= level <= 6 && s != "" && !IsSpace(s[0])
    ensures var line := HeadingLine(w, level, s);
            && HeadingShape(line, |w|, level) && line[|w| + level + 1..] == s && line[|w|] == '#'
  {
    var core := Hashes(level) + " " + s;
    var line := HeadingLine(w, level, s);
    HashesRead(level, s);
    Indented(w, core);
    assert line[|w| + level..] == core[level..] && line[|w| + level + 1..] == core[level + 1..];
    assert line[|w|] == core[0];
  }

  /**
   The heading pattern captures the whole text after the hashes exactly when that is a single
   character or does not end in whitespace or a hash.
   */
  lemma HeadingCapturesExactly(w: string, level: nat, s: string)
    requires AllSpace(w) && |w| <= 3 && 1 <= level <= 6 && s != "" && !IsSpace(s[0]) && NoTerminators(s)
    ensures var line := HeadingLine(w, level, s);
            MatchHeading(line) == HeadingMatch(level, |w| + level + 1, |line|)
            <==> |s| == 1 || !IsTailMark(s[|s| - 1])
  {
    var line := HeadingLine(w, level, s);
    HeadingParts(w, level, s);
    CapturesExactly(line, |w|, level, s);
  }

  lemma CapturesExactly(line: string, w: nat, level: nat, s: string)
    requires HeadingShape(line, w, level) && w <= 3 && 1 <= level <= 6
    requires line[w + level + 1..] == s && s != "" && NoTerminators(s)
    ensures MatchHeading(line) == HeadingMatch(level, w + level + 1, |line|)
            <==> |s| == 1 || !IsTailMark(s[|s| - 1])
  {
    HeadingEndExactly(line, w + level + 1, s);
    CaptureAt(line, w, level);
  }

  lemma HeadingEndExactly(line: string, p: nat, s: string)
    requires p <= |line| && line[p..] == s && s != "" && NoTerminators(s)
    ensures HeadingEnd(line, p) == |line| <==> |s| == 1 || !IsTailMark(s[|s| - 1])
  {
    assert forall k | p <= k < |line| :: line[k] == s[k - p];
    if |s| == 1 || !IsTailMark(s[|s| - 1]) {
      CaptureRunsOut(line, p);
    } else {
      CaptureStopsShort(line, p);
    }
  }

  lemma CaptureBehind(line: string, w: nat, level: nat)
    requires w <= 3 && 1 <= level <= 6 && w + level < |line|
    ensures var p := w + level + 1;
            var end := HeadingEnd(line, p);
            HeadingBehind(line, w, level, 1) == if end > 0 then HeadingMatch(level, p, end) else NoHeading
  {
    OneStart(line, w + level + 1);
  }

  /** The capture starts right after a single space. */
  lemma CaptureAt(line: string, w: nat, level: nat)
    requires HeadingShape(line, w, level) && w <= 3 && 1 <= level <= 6
    ensures var p := w + level + 1;
            var end := HeadingEnd(line, p);
            MatchHeading(line) == if end > 0 then HeadingMatch(level, p, end) else NoHeading
  {
    CaptureBehind(line, w, level);
  }

  /** Hashes, a space and such a text parse to one heading of that level with that text, indented or not. */
  lemma HeadingRoundTrip(w: string, level: nat, s: string)
    requires AllSpace(w) && |w| <= 3 && 1 <= level <= 6 && s != "" && !IsSpace(s[0]) && NoTerminators(s)
    requires |s| == 1 || !IsTailMark(s[|s| - 1])
    ensures ParseFrom([HeadingLine(w, level, s)], 0) == Finished([Placed(Heading(level, Inline(s)), 0, 1)])
  {
    HeadingParts(w, level, s);
    HeadingCapturesExactly(w, level, s);
    HeadingParses(HeadingLine(w, level, s), |w|, level, s);
  }

  /** The heading pattern reads the whole rest of the line as the text. */
  predicate ReadsHeading(line: string, w: nat, level: nat, s: string) {
    && Lead(line) == w < |line| && line[w] == '#' && w + level + 1 <= |line| && line[w + level + 1..] == s
    && MatchHeading(line) == HeadingMatch(level, w + level + 1, |line|)
  }

  lemma HeadingParses(line: string, w: nat, level: nat, s: string)
    requires ReadsHeading(line, w, level, s)
    ensures ParseFrom([line], 0) == Finished([Placed(Heading(level, Inline(s)), 0, 1)])
  {
    NotBlank(line, w);
    HeadingIsBlock(line, w, level, s);
    OneBlock([line], Placed(Heading(level, Inline(s)), 0, 1));
  }

  lemma HeadingIsBlock(line: string, w: nat, level: nat, s: string)
    requires ReadsHeading(line, w, level, s)
    ensures BlockAt([line], 0) == Placed(Heading(level, Inline(s)), 0, 1)
  {
    assert line[w..][0] == '#';
    assert KindAt([line], 0) == HeadingKind;
    BlockDispatched([line], 0, HeadingKind);
    HeadingMade(line, w + level + 1, level, s);
  }

  lemma HeadingMade(line: string, p: nat, level: nat, s: string)
    requires p <= |line| && line[p..] == s && MatchHeading(line) == HeadingMatch(level, p, |line|)
    ensures HeadingBlock([line], 0) == Placed(Heading(level, Inline(s)), 0, 1)
  {
    assert line[p..|line|] == s;
  }
}
