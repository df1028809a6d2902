/**
 Escaping and parsing back (public/dominion-markdown.js): which texts survive the round trip.
 */
module MarkdownEscape {
  import opened Sequences
  import opened Text
  import opened MarkdownInline

  // ---- escaping ----

  /** A backslash before every escapable character. */
  function Escape(s: string): string {
    if s == "" then "" else (if IsEscapable(s[0]) then ['\\', s[0]] else [s[0]]) + Escape(s[1..])
  }

  /** A url scheme followed by a character a bare url may contain. */
  predicate UrlAt(s: string, k: nat) {
    && k <= |s|
    && var m := SchemeLength(s[k..]);
       m > 0 && k + m < |s| && IsUrlChar(s[k + m])
  }

  /** `<`, a scheme, and a `>` before any whitespace. */
  ghost predicate AutolinkAt(s: string, k: nat) {
    && k < |s| && s[k] == '<'
    && var m := SchemeLength(s[k + 1..]);
       m > 0 && Closes(s, k + 1 + m)
  }

  ghost predicate Closes(s: string, start: nat) {
    exists e :: ClosesAuto(s, start, e)
  }

  predicate ClosesAuto(s: string, start: nat, e: int) {
    start <= e < |s| && s[e] == '>' && forall j | start <= j < e :: IsAutoChar(s[j])
  }

  ghost predicate LinkAt(s: string, k: nat) { UrlAt(s, k) || AutolinkAt(s, k) }

  /** The text holds something the parser links without any escapable character. */
  ghost predicate HasLink(s: string) {
    exists k :: LinkAt(s, k)
  }

  function Texts(s: string): (r: seq<Token>)
    ensures |r| == |s|
  {
    seq(|s|, k requires 0 <= k < |s| => TextToken([s[k]]))
  }

  lemma {:induction false} EscapeKeepsScheme(s: string)
    ensures SchemeLength(Escape(s)) == SchemeLength(s)
    ensures Escape(s)[SchemeLength(s)..] == Escape(s[SchemeLength(s)..])
  {
    PlainPrefix(s, "http://");
    PlainPrefix(s, "https://");
  }

  /** A prefix without escapable characters survives escaping, and escaping creates none. */
  lemma {:induction false} PlainPrefix(s: string, p: string)
    requires forall k | 0 <= k < |p| :: !IsEscapable(p[k])
    ensures p <= Escape(s) <==> p <= s
    ensures p <= s ==> Escape(s)[|p|..] == Escape(s[|p|..])
    decreases |p|
  {
    if p != "" && s != "" {
      PlainPrefix(s[1..], p[1..]);
      var e := Escape(s);
      SplitFirst(s);
      SplitFirst(p);
      if IsEscapable(s[0]) {
        assert e[0] == '\\';
      } else {
        assert e == [s[0]] + Escape(s[1..]);
        assert e[1..] == Escape(s[1..]);
      }
    }
  }

  lemma {:induction false} EscapeStartsSafe(s: string)
    requires s != ""
    ensures Escape(s) != "" && Escape(s)[0] != '>'
    ensures IsUrlChar(Escape(s)[0]) <==> IsUrlChar(s[0])
  {}

  lemma RunSplits(p: char -> bool, a: string, b: string)
    requires forall k | 0 <= k < |a| :: p(a[k])
    ensures RunLength(p, a + b) == |a| + RunLength(p, b)
  {
    var n := RunLength(p, b);
    var s := a + b;
    assert forall k | |a| <= k < |a| + n :: s[k] == b[k - |a|];
    RunLengthUnique(p, s, |a| + n);
  }

  predicate StopsAtClose(t: string) {
    var run := RunLength(IsAutoChar, t);
    run < |t| && t[run] == '>'
  }

  /** After the scheme, the escaped text closes an autolink exactly when the text does. */
  lemma {:induction false} AutolinkTail(u: string)
    ensures StopsAtClose(Escape(u)) <==> Closes(u, 0)
    ensures StopsAtClose(Escape(u)) ==> RunLength(IsAutoChar, Escape(u)) > 0
    decreases |u|
  {
    if u == "" {
    } else if u[0] == '>' {
      var t := Escape(u);
      RunSplits(IsAutoChar, "\\", t[1..]);
      assert t == "\\" + t[1..];
      assert ClosesAuto(u, 0, 0);
    } else if !IsSpace(u[0]) {
      AutolinkTail(u[1..]);
      if u[1..] != "" { EscapeStartsSafe(u[1..]); }
      AutoHead(u[0], Escape(u[1..]));
      ClosesStep(u);
    }
  }

  lemma AutoHead(c: char, rest: string)
    requires IsAutoChar(c) && (rest == "" || rest[0] != '>')
    ensures StopsAtClose(Head(c) + rest) <==> StopsAtClose(rest)
    ensures RunLength(IsAutoChar, Head(c) + rest) > 0
  {
    RunSplits(IsAutoChar, Head(c), rest);
  }

  lemma ClosesStep(u: string)
    requires u != "" && IsAutoChar(u[0])
    ensures Closes(u, 0) <==> Closes(u[1..], 0)
  {
    if e :| ClosesAuto(u[1..], 0, e) {
      assert ClosesAuto(u, 0, e + 1) by {
        assert forall j | 0 < j < e + 1 :: u[j] == u[1..][j - 1];
      }
    }
    if e :| ClosesAuto(u, 0, e) {
      assert ClosesAuto(u[1..], 0, e - 1) by {
        assert forall j | 0 <= j < e - 1 :: u[1..][j] == u[j + 1];
      }
    }
  }

  lemma ClosesShift(s: string, start: nat)
    requires start <= |s|
    ensures Closes(s, start) <==> Closes(s[start..], 0)
  {
    if e :| ClosesAuto(s, start, e) {
      assert forall j | 0 <= j < e - start :: s[start..][j] == s[start + j];
      assert ClosesAuto(s[start..], 0, e - start);
    }
    if e :| ClosesAuto(s[start..], 0, e) {
      assert forall j | start <= j < start + e :: s[j] == s[start..][j - start];
      assert ClosesAuto(s, start, start + e);
    }
  }

  lemma EscapedUrl(s: string)
    ensures MatchUrl(Escape(s)) > 0 <==> UrlAt(s, 0)
  {
    var m := SchemeLength(s);
    EscapeKeepsScheme(s);
    assert s[0..] == s;
    if m > 0 && m < |s| {
      EscapeStartsSafe(s[m..]);
    }
  }

  lemma EscapedAutolink(s: string)
    requires s != "" && s[0] == '<'
    ensures MatchAutolink(Escape(s)) > 0 <==> AutolinkAt(s, 0)
  {
    var e := Escape(s);
    assert e[1..] == Escape(s[1..]);
    EscapeKeepsScheme(s[1..]);
    var m := SchemeLength(s[1..]);
    if m > 0 {
      assert e[1 + m..] == Escape(s[1..])[m..];
      assert s[1..][m..] == s[1 + m..];
      AutolinkTail(s[1 + m..]);
      ClosesShift(s, 1 + m);
    }
  }

  function Head(c: char): string { if IsEscapable(c) then ['\\', c] else [c] }

  /** The first step over an escaped text: its first character as text, unless a link starts there. */
  lemma EscapedStep(s: string)
    requires s != ""
    ensures LinkAt(s, 0) ==> NextToken(Escape(s)).0 != [] && NextToken(Escape(s)).0[0].Link?
    ensures !LinkAt(s, 0) ==> NextToken(Escape(s)) == ([TextToken([s[0]])], |Head(s[0])|)
  {
    var e := Escape(s);
    if IsEscapable(s[0]) {
      assert SchemeLength(s) == 0;
      assert s[0..] == s;
    } else {
      EscapedUrl(s);
      if s[0] == '<' {
        EscapedAutolink(s);
      }
      assert MatchUrl(e) > 0 ==> UrlTokens(e[..MatchUrl(e)])[0].Link?;
    }
  }

  lemma LinksShift(s: string)
    requires s != ""
    ensures HasLink(s) <==> LinkAt(s, 0) || HasLink(s[1..])
  {
    if k :| LinkAt(s, k) {
      if k > 0 { LinkShift(s, k); }
    }
    if k: nat :| LinkAt(s[1..], k) {
      LinkShift(s, k + 1);
    }
  }

  lemma LinkShift(s: string, k: nat)
    requires 0 < k <= |s|
    ensures LinkAt(s, k) <==> LinkAt(s[1..], k - 1)
  {
    assert s[1..][k - 1..] == s[k..];
    if k < |s| && s[k] == '<' {
      assert s[1..][k..] == s[k + 1..];
      var m := SchemeLength(s[k + 1..]);
      assert k + 1 + m <= |s|;
      ClosesShift(s, k + 1 + m);
      ClosesShift(s[1..], k + m);
      assert s[1..][k + m..] == s[k + 1 + m..];
    }
  }

  predicate HasLinkToken(ts: seq<Token>) {
    exists k :: 0 <= k < |ts| && ts[k].Link?
  }

  lemma {:induction false} EscapedScan(s: string)
    ensures if HasLink(s) then HasLinkToken(Scan(Escape(s))) else Scan(Escape(s)) == Texts(s)
    decreases |s|
  {
    if s == "" {
      assert s[0..] == "";
      assert forall k: nat :: !LinkAt(s, k);
    } else {
      LinksShift(s);
      EscapedStep(s);
      ScanUnfolds(Escape(s));
      if LinkAt(s, 0) {
        assert Scan(Escape(s))[0].Link?;
      } else {
        EscapedScan(s[1..]);
        EscapeUnfolds(s);
        ConsTexts(s, Scan(Escape(s[1..])));
      }
    }
  }

  lemma EscapeUnfolds(s: string)
    requires s != ""
    ensures Escape(s)[|Head(s[0])|..] == Escape(s[1..])
  {
    assert Escape(s) == Head(s[0]) + Escape(s[1..]);
  }

  lemma ConsTexts(s: string, rest: seq<Token>)
    requires s != ""
    ensures HasLinkToken(rest) ==> HasLinkToken([TextToken([s[0]])] + rest)
    ensures rest == Texts(s[1..]) ==> [TextToken([s[0]])] + rest == Texts(s)
  {
    var more := [TextToken([s[0]])] + rest;
    assert forall k | 0 <= k < |rest| :: more[k + 1] == rest[k];
  }

  lemma {:induction false} CoalesceTexts(s: string)
    ensures Coalesce(Texts(s)) == if s == "" then [] else [TextToken(s)]
    decreases |s|
  {
    if s != "" {
      var init := s[..|s| - 1];
      CoalesceTexts(init);
      assert Texts(s)[..|s| - 1] == Texts(init);
      SplitLast(s);
    }
  }

  lemma SnocLinks(ts: seq<Token>, t: Token)
    ensures HasLinkToken(ts + [t]) <==> HasLinkToken(ts) || t.Link?
  {
    var more := ts + [t];
    assert more[|ts|] == t;
    assert forall k | 0 <= k < |ts| :: more[k] == ts[k];
  }

  lemma PushKeepsLinks(ts: seq<Token>, t: Token)
    ensures HasLinkToken(Push(ts, t)) <==> HasLinkToken(ts) || t.Link?
  {
    SnocLinks(ts, t);
    if t.TextToken? && t.value != "" && ts != [] && ts[|ts| - 1].TextToken? {
      var init := ts[..|ts| - 1];
      SplitLast(ts);
      SnocLinks(init, ts[|ts| - 1]);
      SnocLinks(init, TextToken(ts[|ts| - 1].value + t.value));
    }
  }

  lemma {:induction false} CoalesceKeepsLinks(ts: seq<Token>)
    ensures HasLinkToken(Coalesce(ts)) <==> HasLinkToken(ts)
    decreases |ts|
  {
    if ts != [] {
      var init := ts[..|ts| - 1];
      CoalesceKeepsLinks(init);
      PushKeepsLinks(Coalesce(init), ts[|ts| - 1]);
      SnocLinks(init, ts[|ts| - 1]);
      SplitLast(ts);
    }
  }

  /**
   For every text, escaping and parsing gives the text back as one text token (nothing for the
   empty text) exactly when the text holds no url the parser links without any escapable character.
   */
  lemma EscapeRoundTripExactly(s: string)
    ensures Inline(Escape(s)) == (if s == "" then [] else [TextToken(s)]) <==> !HasLink(s)
  {
    EscapedScan(s);
    CoalesceTexts(s);
    CoalesceKeepsLinks(Scan(Escape(s)));
  }

  /** In particular every text without "http://" and "https://" survives. */
  lemma PlainTextSurvives(s: string)
    requires forall k | 0 <= k <= |s| :: SchemeLength(s[k..]) == 0
    ensures Inline(Escape(s)) == if s == "" then [] else [TextToken(s)]
  {
    EscapeRoundTripExactly(s);
  }
}
