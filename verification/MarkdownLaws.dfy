/** What the inline parser guarantees for every text (public/dominion-markdown.js). */
module MarkdownLaws {
  import opened Sequences
  import opened MarkdownInline

  // ---- nothing invented ----

  lemma InnerSlice(v: string, s: string, lo: nat, hi: nat, n: nat)
    requires lo <= hi <= n <= |s| && Subsequence(v, s[lo..hi])
    ensures Subsequence(v, s[..n])
  {
    assert s[lo..hi] == s[..n][lo..hi];
    SliceSubsequence(s[..n], lo, hi);
    SubsequenceTrans(v, s[lo..hi], s[..n]);
  }

  lemma UrlVisible(found: string)
    ensures Visible(UrlTokens(found)) == found
  {
    var href := TrimTail(found);
    var url := Link(href, "", [TextToken(href)]);
    VisibleOne(url);
    VisibleOne(TextToken(href));
    VisibleOne(TextToken(found[|href|..]));
    VisibleConcat([url], if |href| < |found| then [TextToken(found[|href|..])] else []);
  }

  lemma {:induction false} NextVisible(s: string)
    requires s != ""
    ensures Subsequence(Visible(NextToken(s).0), s[..NextToken(s).1])
    decreases |s|, 1
  {
    if s[0] == '\\' && |s| > 1 && IsEscapable(s[1]) {
      VisibleOne(TextToken([s[1]]));
      SubsequenceRefl(s[1..2]);
      InnerSlice([s[1]], s, 1, 2, 2);
      return;
    }
    var code := Enclosed(s, '`', IsCodeChar, '`');
    if code > 0 {
      VisibleOne(Code(s[1..code - 1]));
      SubsequenceRefl(s[1..code - 1]);
      InnerSlice(s[1..code - 1], s, 1, code - 1, code);
      return;
    }
    var strong := Doubled(s, '*');
    if strong > 0 {
      VisibleOne(Strong(Inline(s[2..strong - 2])));
      NothingInvented(s[2..strong - 2]);
      InnerSlice(Visible(Inline(s[2..strong - 2])), s, 2, strong - 2, strong);
      return;
    }
    var del := Doubled(s, '~');
    if del > 0 {
      VisibleOne(Del(Inline(s[2..del - 2])));
      NothingInvented(s[2..del - 2]);
      InnerSlice(Visible(Inline(s[2..del - 2])), s, 2, del - 2, del);
      return;
    }
    NextVisibleRest(s);
  }

  lemma {:induction false} NextVisibleRest(s: string)
    requires s != ""
    ensures Subsequence(Visible(LinkOrText(s).0), s[..LinkOrText(s).1])
    decreases |s|, 0
  {
    var link := MatchLink(s);
    if link.LinkMatch? {
      VisibleOne(Link(link.href, link.title, Inline(link.caption)));
      NothingInvented(link.caption);
      InnerSlice(Visible(Inline(link.caption)), s, 1, |link.caption| + 1, link.length);
      return;
    }
    var em := Enclosed(s, '*', IsEmChar, '*');
    if em > 0 {
      VisibleOne(Em(Inline(s[1..em - 1])));
      NothingInvented(s[1..em - 1]);
      InnerSlice(Visible(Inline(s[1..em - 1])), s, 1, em - 1, em);
      return;
    }
    var auto := MatchAutolink(s);
    if auto > 0 {
      VisibleOne(Link(s[1..auto - 1], "", [TextToken(s[1..auto - 1])]));
      VisibleOne(TextToken(s[1..auto - 1]));
      SubsequenceRefl(s[1..auto - 1]);
      InnerSlice(s[1..auto - 1], s, 1, auto - 1, auto);
      return;
    }
    var url := MatchUrl(s);
    if url > 0 {
      UrlVisible(s[..url]);
      SubsequenceRefl(s[..url]);
      return;
    }
    VisibleOne(TextToken([s[0]]));
    SubsequenceRefl([s[0]]);
    assert [s[0]] == s[..1];
  }

  lemma {:induction false} ScanVisible(s: string)
    ensures Subsequence(Visible(Scan(s)), s)
    decreases |s|, 2
  {
    if s != "" {
      var (more, n) := NextToken(s);
      ScanUnfolds(s);
      NextVisible(s);
      ScanVisible(s[n..]);
      VisibleConcat(more, Scan(s[n..]));
      SubsequenceConcat(Visible(more), s[..n], Visible(Scan(s[n..])), s[n..]);
      assert s == s[..n] + s[n..];
    }
  }

  /** For every text, what the parsed tokens show is a subsequence of the text. */
  lemma {:induction false} NothingInvented(s: string)
    ensures Subsequence(Visible(Inline(s)), s)
    decreases |s|, 3
  {
    ScanVisible(s);
    CoalesceVisible(Scan(s));
  }

  // ---- normal form ----

  /** No empty text, no empty container, at every level. */
  predicate GoodToken(t: Token)
    decreases t
  {
    match t
    case TextToken(v) => v != ""
    case Code(c) => c != "" && forall k | 0 <= k < |c| :: IsCodeChar(c[k])
    case Strong(ts) => ts != [] && Normal(ts)
    case Del(ts) => ts != [] && Normal(ts)
    case Em(ts) => ts != [] && Normal(ts)
    case Link(href, _, ts) => href != "" && ts != [] && Normal(ts)
  }

  /** Good tokens, and no two neighbouring texts. */
  predicate Normal(ts: seq<Token>)
    decreases ts
  {
    && (forall k | 0 <= k < |ts| :: GoodToken(ts[k]))
    && forall k | 0 <= k < |ts| - 1 :: !(ts[k].TextToken? && ts[k + 1].TextToken?)
  }

  lemma {:induction false} CoalesceNormal(ts: seq<Token>)
    requires forall k | 0 <= k < |ts| :: GoodToken(ts[k])
    ensures Normal(Coalesce(ts)) && (ts != [] ==> Coalesce(ts) != [])
    decreases |ts|
  {
    if ts != [] {
      CoalesceNormal(ts[..|ts| - 1]);
    }
  }

  lemma UrlGood(found: string)
    requires SchemeLength(found) > 0
    ensures forall k | 0 <= k < |UrlTokens(found)| :: GoodToken(UrlTokens(found)[k])
  {
    var href := TrimTail(found);
    assert found[SchemeLength(found) - 1] == '/';
    assert href != "";
    assert GoodToken(TextToken(href));
    assert Normal([TextToken(href)]);
  }

  predicate AllGood(ts: seq<Token>) {
    forall k | 0 <= k < |ts| :: GoodToken(ts[k])
  }

  lemma {:induction false} NextGood(s: string)
    requires s != ""
    ensures NextToken(s).0 != [] && AllGood(NextToken(s).0)
    decreases |s|, 1
  {
    if s[0] == '\\' && |s| > 1 && IsEscapable(s[1]) {
      return;
    }
    var code := Enclosed(s, '`', IsCodeChar, '`');
    if code > 0 {
      return;
    }
    var strong := Doubled(s, '*');
    if strong > 0 {
      NormalForm(s[2..strong - 2]);
      return;
    }
    var del := Doubled(s, '~');
    if del > 0 {
      NormalForm(s[2..del - 2]);
      return;
    }
    NextGoodRest(s);
  }

  lemma SchemeKept(s: string, n: nat)
    requires SchemeLength(s) < n <= |s|
    ensures SchemeLength(s[..n]) == SchemeLength(s)
  {}

  lemma AutolinkGood(href: string)
    requires href != ""
    ensures GoodToken(Link(href, "", [TextToken(href)]))
  {
    assert GoodToken(TextToken(href));
    assert Normal([TextToken(href)]);
  }

  lemma {:induction false} NextGoodRest(s: string)
    requires s != ""
    ensures LinkOrText(s).0 != [] && AllGood(LinkOrText(s).0)
    decreases |s|, 0
  {
    var link := MatchLink(s);
    if link.LinkMatch? {
      NormalForm(link.caption);
      return;
    }
    var em := Enclosed(s, '*', IsEmChar, '*');
    if em > 0 {
      NormalForm(s[1..em - 1]);
      return;
    }
    var auto := MatchAutolink(s);
    if auto > 0 {
      AutolinkGood(s[1..auto - 1]);
      return;
    }
    var url := MatchUrl(s);
    if url > 0 {
      SchemeKept(s, url);
      UrlGood(s[..url]);
    }
  }

  lemma {:induction false} ScanGood(s: string)
    ensures AllGood(Scan(s)) && (s != "" ==> Scan(s) != [])
    decreases |s|, 2
  {
    if s != "" {
      ScanUnfolds(s);
      NextGood(s);
      ScanGood(s[NextToken(s).1..]);
    }
  }

  /**
   For every text: at every level no empty text, no two adjacent texts and no empty container;
   a nonempty text gives a nonempty token list.
   */
  lemma {:induction false} NormalForm(s: string)
    ensures Normal(Inline(s)) && (s != "" ==> Inline(s) != [])
    decreases |s|, 3
  {
    ScanGood(s);
    CoalesceNormal(Scan(s));
  }
}
