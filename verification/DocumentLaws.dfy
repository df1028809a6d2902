/** What the block parser guarantees for every document (public/dominion-markdown.js). */
module DocumentLaws {
  import opened Sequences
  import opened Text
  import opened MarkdownBlocks

  // ---- progress ----

  /** Every branch but the list consumes its opening line; a list does unless its own pattern rejects it. */
  lemma AdvancesExactly(lines: seq<string>, i: nat)
    requires i < |lines|
    ensures BlockAt(lines, i).to == i <==> Stuttering(lines, i)
  {
    match KindAt(lines, i) {
      case ListKind =>
        var ordered := IsOrdered(lines[i]);
        assert InList(ordered)(lines[i], LineAt(lines, i + 1)) <==> ItemText(lines[i], ordered).Some?;
      case QuoteKind =>
        assert InQuote(lines[i], LineAt(lines, i + 1));
      case _ =>
    }
  }

  /** A stalling line that no earlier branch of the block loop takes. */
  predicate Stuttering(lines: seq<string>, i: nat)
    requires i < |lines|
  {
    KindAt(lines, i) == ListKind && Stalling(lines[i])
  }

  /** A stalling line holds a line separator or paragraph separator. */
  lemma StallingNeedsTerminator(line: string)
    requires NoTerminators(line)
    ensures !Stalling(line)
  {
    if StartsList(line) {
      var a := MarkerEnd(line, IsOrdered(line));
      var end := a + RunLength(IsSpace, line[a..]);
      assert NoTerminators(line[end..]);
      assert ItemStart(line, a) == Some(end);
    }
  }

  lemma NotBlank(line: string, k: nat)
    requires k < |line| && !IsSpace(line[k])
    ensures !Blank(line)
  {
    var lo, hi := TrimIsSlice(line);
  }

  lemma ListLineIsNoFence(line: string)
    requires StartsList(line)
    ensures !IsFence(line) && !IsQuote(line) && !Blank(line)
  {
    var w := Lead(line);
    assert line[w..][0] == line[w];
    NotBlank(line, w);
  }

  lemma ListLineIsNoHeading(line: string)
    requires StartsList(line)
    ensures MatchHeading(line).NoHeading?
  {
    var w := Lead(line);
    assert line[w..][0] == line[w];
  }

  lemma ListLineIsNoRule(line: string)
    requires StartsList(line)
    ensures !IsRule(line)
  {
    var w := Lead(line);
    var s := line[w..];
    assert s[0] == line[w];
    if IsBullet(line) {
      assert IsSpace(line[w + 1]) by { assert line[w + 1..][0] == line[w + 1]; }
      assert s[1] == line[w + 1];
      AtMostOne(s, IsDash);
      AtMostOne(s, IsStar);
      AtMostOne(s, IsUnderscore);
    } else {
      assert IsDigit(s[0]);
    }
  }

  lemma AtMostOne(s: string, p: char -> bool)
    requires |s| >= 2 && !p(s[1])
    ensures RunLength(p, s) <= 1
  {}

  /** A stalling line that does not open a table makes the loop stutter. */
  lemma StallingStutters(lines: seq<string>, i: nat)
    requires i < |lines| && Stalling(lines[i]) && !StartsTable(lines, i)
    ensures Stuttering(lines, i) && !Blank(lines[i])
  {
    ListLineIsNoFence(lines[i]);
    ListLineIsNoHeading(lines[i]);
    ListLineIsNoRule(lines[i]);
  }

  // ---- when the parser terminates ----

  /** The block loop, started at `i`, comes to line `j`. */
  predicate Reaches(lines: seq<string>, i: nat, j: nat)
    requires i <= |lines|
    decreases |lines| - i
  {
    i == j ||
    (i < |lines| &&
     var next := if Blank(lines[i]) then i + 1 else BlockAt(lines, i).to;
     next > i && Reaches(lines, next, j))
  }

  /** The loop gets stuck exactly at a stuttering line that it reaches. */
  lemma {:induction false} StuckExactly(lines: seq<string>, i: nat, at: nat)
    requires i <= |lines|
    ensures ParseFrom(lines, i) == Stuck(at)
            <==> at < |lines| && Reaches(lines, i, at) && !Blank(lines[at]) && Stuttering(lines, at)
    decreases |lines| - i
  {
    if i < |lines| {
      AdvancesExactly(lines, i);
      var next := if Blank(lines[i]) then i + 1 else BlockAt(lines, i).to;
      if next > i {
        StuckExactly(lines, next, at);
        if Reaches(lines, next, at) { NeverBackwards(lines, next, at); }
      }
    }
  }

  lemma {:induction false} NeverBackwards(lines: seq<string>, i: nat, j: nat)
    requires i <= |lines| && Reaches(lines, i, j)
    ensures i <= j <= |lines|
    decreases |lines| - i
  {
    if i != j {
      NeverBackwards(lines, if Blank(lines[i]) then i + 1 else BlockAt(lines, i).to, j);
    }
  }

  lemma RunStops(lines: seq<string>, i: nat, j: nat, p: LineTest)
    requires i <= j < |lines| && !p(lines[j], LineAt(lines, j + 1))
    ensures RunEnd(lines, i, p) <= j
  {}

  // ---- every line is accounted for ----

  /** Spans in order, without overlap, inside lines[i..]. */
  predicate InOrder(lines: seq<string>, i: nat, bs: seq<Placed>) {
    && (forall k | 0 <= k < |bs| :: i <= bs[k].from < bs[k].to <= |lines|)
    && forall j, k | 0 <= j < k < |bs| :: bs[j].to <= bs[k].from
  }

  predicate Holds(b: Placed, n: nat) { b.from <= n < b.to }

  /** The spans and the blank lines between them account for every line from `i` on. */
  predicate Accounted(lines: seq<string>, i: nat, bs: seq<Placed>) {
    && InOrder(lines, i, bs)
    && forall n | i <= n < |lines| && !Blank(lines[n]) :: exists k :: 0 <= k < |bs| && Holds(bs[k], n)
  }

  lemma AccountedExtends(lines: seq<string>, i: nat, p: Placed, rest: seq<Placed>)
    requires i <= p.from < p.to <= |lines| && Accounted(lines, p.to, rest) && AllBlank(lines, i, p.from)
    ensures Accounted(lines, i, [p] + rest)
  {
    var bs := [p] + rest;
    assert InOrder(lines, i, bs);
    forall n | i <= n < |lines| && !Blank(lines[n])
      ensures exists k :: 0 <= k < |bs| && Holds(bs[k], n)
    {
      if n < p.to {
        assert bs[0] == p && Holds(bs[0], n);
      } else {
        var k :| 0 <= k < |rest| && Holds(rest[k], n);
        assert bs[k + 1] == rest[k];
      }
    }
  }

  lemma ParseBlank(lines: seq<string>, i: nat)
    requires i < |lines| && Blank(lines[i])
    ensures ParseFrom(lines, i) == ParseFrom(lines, i + 1)
  {}

  lemma ParseOne(lines: seq<string>, i: nat)
    requires i < |lines| && !Blank(lines[i]) && ParseFrom(lines, i).Finished?
    ensures var p := BlockAt(lines, i);
            var bs := ParseFrom(lines, i).blocks;
            && bs != [] && bs[0] == p && i < p.to <= |lines| && p.from == i
            && ParseFrom(lines, p.to) == Finished(bs[1..])
  {}

  /** From line `i` on: blank lines, a span, blank lines, a span, ..., blank lines. */
  predicate Tiled(lines: seq<string>, i: nat, bs: seq<Placed>)
    decreases |bs|
  {
    if bs == [] then AllBlank(lines, i, |lines|)
    else
      && i <= bs[0].from < bs[0].to <= |lines| && AllBlank(lines, i, bs[0].from)
      && Tiled(lines, bs[0].to, bs[1..])
  }

  predicate AllBlank(lines: seq<string>, i: nat, j: nat) {
    forall n | i <= n < j && n < |lines| :: Blank(lines[n])
  }

  lemma {:induction false} TiledAccounts(lines: seq<string>, i: nat, bs: seq<Placed>)
    requires i <= |lines| && Tiled(lines, i, bs)
    ensures Accounted(lines, i, bs)
    decreases |bs|
  {
    if bs != [] {
      TiledAccounts(lines, bs[0].to, bs[1..]);
      AccountedExtends(lines, i, bs[0], bs[1..]);
      SplitFirst(bs);
    }
  }

  /**
   The spans of the blocks, in order and without overlap, and the blank lines outside them account
   for every line of the document.
   */
  lemma LinesConserved(lines: seq<string>, i: nat)
    requires i <= |lines| && ParseFrom(lines, i).Finished?
    ensures Accounted(lines, i, ParseFrom(lines, i).blocks)
  {
    SpansTile(lines, i, ParseFrom(lines, i).blocks);
    TiledAccounts(lines, i, ParseFrom(lines, i).blocks);
  }

  /** How the parse from one line follows from the parse of later lines. */
  ghost predicate Unfolds(parse: nat -> Outcome, lines: seq<string>, k: nat)
    requires k <= |lines|
  {
    if k == |lines| then parse(k) == Finished([])
    else if Blank(lines[k]) then parse(k) == parse(k + 1)
    else
      parse(k).Finished? ==>
        var bs := parse(k).blocks;
        bs != [] && k == bs[0].from < bs[0].to <= |lines| && parse(bs[0].to) == Finished(bs[1..])
  }

  lemma {:induction false} UnfoldedTiles(parse: nat -> Outcome, lines: seq<string>, i: nat, bs: seq<Placed>)
    requires i <= |lines| && (forall k | 0 <= k <= |lines| :: Unfolds(parse, lines, k)) && parse(i) == Finished(bs)
    ensures Tiled(lines, i, bs)
    decreases |lines| - i
  {
    assert Unfolds(parse, lines, i);
    if i < |lines| {
      if Blank(lines[i]) {
        UnfoldedTiles(parse, lines, i + 1, bs);
        BlankTiles(lines, i, bs);
      } else {
        UnfoldedTiles(parse, lines, bs[0].to, bs[1..]);
        BlockTiles(lines, i, bs);
      }
    }
  }

  function ParsesFrom(lines: seq<string>): nat -> Outcome {
    (k: nat) => if k <= |lines| then ParseFrom(lines, k) else Stuck(k)
  }

  lemma ParseUnfolds(lines: seq<string>, k: nat)
    requires k <= |lines|
    ensures Unfolds(ParsesFrom(lines), lines, k)
  {
    if k == |lines| {
      ParseEnd(lines);
    } else if Blank(lines[k]) {
      ParseBlank(lines, k);
    } else if ParseFrom(lines, k).Finished? {
      ParseOne(lines, k);
    }
  }

  lemma SpansTile(lines: seq<string>, i: nat, bs: seq<Placed>)
    requires i <= |lines| && ParseFrom(lines, i) == Finished(bs)
    ensures Tiled(lines, i, bs)
  {
    forall k | 0 <= k <= |lines|
      ensures Unfolds(ParsesFrom(lines), lines, k)
    {
      ParseUnfolds(lines, k);
    }
    UnfoldedTiles(ParsesFrom(lines), lines, i, bs);
  }

  lemma BlankTiles(lines: seq<string>, i: nat, bs: seq<Placed>)
    requires i < |lines| && Blank(lines[i]) && Tiled(lines, i + 1, bs)
    ensures Tiled(lines, i, bs)
  {}

  lemma BlockTiles(lines: seq<string>, i: nat, bs: seq<Placed>)
    requires bs != [] && i == bs[0].from < bs[0].to <= |lines| && Tiled(lines, bs[0].to, bs[1..])
    ensures Tiled(lines, i, bs)
  {}

  // ---- fenced code ----

  lemma {:induction false} NormalizePlain(s: string)
    requires '\r' !in s
    ensures NormalizeNewlines(s) == s
    decreases |s|
  {
    if s != "" {
      SplitFirst(s);
      NormalizePlain(s[1..]);
    }
  }

  lemma SplitAppendLine(t: string, l: string)
    requires '\n' !in l
    ensures Split(t + "\n" + l, '\n') == Split(t, '\n') + [l]
  {
    var parts := Split(t, '\n');
    var last := LastLine(t, parts);
    AppendToParts(t, l, parts, parts[..|parts| - 1], last);
  }

  lemma LastLine(t: string, parts: seq<string>) returns (last: string)
    requires parts == Split(t, '\n')
    ensures parts == parts[..|parts| - 1] + [last] && '\n' !in last
  {
    JoinSplit(t, '\n');
    last := parts[|parts| - 1];
    assert last in parts;
  }

  lemma AppendToParts(t: string, l: string, parts: seq<string>, init: seq<string>, last: string)
    requires '\n' !in l && '\n' !in last && parts == init + [last] && parts == Split(t, '\n')
    ensures Split(t + "\n" + l, '\n') == parts + [l]
  {
    TwoLines(last, l);
    assert t + "\n" + l == t + ("\n" + l);
    SplitConcat(t, "\n" + l, '\n', parts);
    assert init + [last, l] == parts + [l];
  }

  lemma TwoLines(last: string, l: string)
    requires '\n' !in l && '\n' !in last
    ensures Split(last + ("\n" + l), '\n') == [last, l]
  {
    SplitAt(last, l, '\n');
    SplitWhole(l, '\n');
  }

  /** The document that fences the text `t`. */
  function Fenced(info: string, t: string): string {
    "```" + info + "\n" + t + "\n" + "```"
  }

  lemma FencedLines(info: string, t: string)
    requires '\n' !in info && '\r' !in info && '\r' !in t
    ensures Lines(Fenced(info, t)) == ["```" + info] + Split(t, '\n') + ["```"]
  {
    FencedParts(info, t);
    NormalizePlain(Fenced(info, t));
    SplitAt("```" + info, t + "\n" + "```", '\n');
    SplitAppendLine(t, "```");
  }

  lemma FencedParts(info: string, t: string)
    ensures Fenced(info, t) == ("```" + info) + ("\n" + (t + "\n" + "```"))
    ensures '\r' !in info && '\r' !in t ==> '\r' !in Fenced(info, t)
  {}

  lemma FenceLine(line: string)
    requires "```" <= line
    ensures IsFence(line) && !Blank(line)
  {
    RunLengthUnique(IsSpace, line, 0);
    NotBlank(line, 0);
  }

  lemma FenceRun(lines: seq<string>, i: nat, j: nat)
    requires i <= j < |lines| && IsFence(lines[j])
    ensures RunEnd(lines, i, InFence) == j <==> forall k | i <= k < j :: !IsFence(lines[k])
  {
    var r := RunEnd(lines, i, InFence);
    RunStops(lines, i, j, InFence);
    if r < j {
      assert !InFence(lines[r], LineAt(lines, r + 1));
    }
    forall k | i <= k < r
      ensures !IsFence(lines[k])
    {
      assert InFence(lines[k], LineAt(lines, k + 1));
    }
  }

  // every text: carriage returns are normalized away

  lemma {:induction false} NormalizeDropsReturns(s: string)
    ensures '\r' !in NormalizeNewlines(s)
    ensures forall c | c in NormalizeNewlines(s) :: c in s || c == '\n'
    decreases |s|
  {
    if s != "" {
      SplitFirst(s);
      if s[0] == '\r' && |s| > 1 && s[1] == '\n' {
        NormalizeDropsReturns(s[2..]);
      } else {
        NormalizeDropsReturns(s[1..]);
      }
    }
  }

  lemma {:induction false} PartsInside(s: string, sep: char)
    ensures forall p, c | p in Split(s, sep) && c in p :: c in s
    decreases |s|
  {
    if s != "" {
      PartsInside(s[1..], sep);
      SplitFirst(s);
      var rest := Split(s[1..], sep);
      SplitFirst(rest);
      forall p, c | p in Split(s, sep) && c in p
        ensures c in s
      {
        if s[0] != sep && p == [s[0]] + rest[0] && c != s[0] {
          assert c in rest[0] && rest[0] in rest;
        }
      }
    }
  }

  /** The lines of a text hold no line break of the source's line splitting, and only characters of the text. */
  lemma LinesHoldNoBreaks(text: string)
    ensures forall l | l in Lines(text) :: '\n' !in l && '\r' !in l && forall c | c in l :: c in text
  {
    NormalizeDropsReturns(text);
    JoinSplit(NormalizeNewlines(text), '\n');
    PartsInside(NormalizeNewlines(text), '\n');
  }

  lemma {:induction false} FirstLineKept(first: string, rest: string)
    requires '\n' !in first && '\r' !in first
    ensures NormalizeNewlines(first + ("\n" + rest)) == first + ("\n" + NormalizeNewlines(rest))
    decreases |first|
  {
    var s := first + ("\n" + rest);
    if first == "" {
      assert s == "\n" + rest && s[1..] == rest;
    } else {
      SplitFirst(first);
      assert s[1..] == first[1..] + ("\n" + rest);
      FirstLineKept(first[1..], rest);
    }
  }

  lemma FencedOpens(info: string, t: string)
    requires '\n' !in info && '\r' !in info
    ensures var lines := Lines(Fenced(info, t));
            |lines| >= 2 && lines[0] == "```" + info
  {
    var first, rest := "```" + info, t + "\n" + "```";
    FencedParts(info, t);
    FirstLineKept(first, rest);
    SplitAt(first, NormalizeNewlines(rest), '\n');
  }

  lemma {:induction false} JoinHolds(ls: seq<string>, sep: char, c: char)
    requires c != sep && forall l | l in ls :: c !in l
    ensures c !in Join(ls, sep)
  {
    if |ls| > 1 {
      JoinHolds(ls[1..], sep, c);
    }
  }

  /** What a fence gives back never holds a carriage return. */
  lemma FencedBlockHasNoReturn(info: string, t: string, n: nat)
    requires '\n' !in info && '\r' !in info && '\r' in t
    ensures ParseFrom(Lines(Fenced(info, t)), 0) != Finished([Placed(CodeBlock(Language("```" + info), t), 0, n)])
  {
    var lines := Lines(Fenced(info, t));
    FencedOpens(info, t);
    FenceLine(lines[0]);
    FenceParse(lines);
    LinesHoldNoBreaks(Fenced(info, t));
    var body := lines[1..RunEnd(lines, 1, InFence)];
    assert forall l | l in body :: l in lines;
    JoinHolds(body, '\n', '\r');
  }

  /**
   Fencing any text and parsing it gives the whole text back unchanged as one code block exactly
   when the text holds no carriage return and no line of it is itself a fence.
   */
  lemma FenceRoundTripExactly(info: string, t: string)
    requires '\n' !in info && '\r' !in info
    ensures var n := |Split(t, '\n')| + 2;
            ParseFrom(Lines(Fenced(info, t)), 0) == Finished([Placed(CodeBlock(Language("```" + info), t), 0, n)])
            <==> '\r' !in t && forall l | l in Split(t, '\n') :: !IsFence(l)
  {
    if '\r' in t {
      FencedBlockHasNoReturn(info, t, |Split(t, '\n')| + 2);
    } else {
      PlainFenceRoundTrip(info, t);
    }
  }

  lemma PlainFenceRoundTrip(info: string, t: string)
    requires '\n' !in info && '\r' !in info && '\r' !in t
    ensures var n := |Split(t, '\n')| + 2;
            ParseFrom(Lines(Fenced(info, t)), 0) == Finished([Placed(CodeBlock(Language("```" + info), t), 0, n)])
            <==> forall l | l in Split(t, '\n') :: !IsFence(l)
  {
    var lines := Lines(Fenced(info, t));
    FencedLines(info, t);
    FenceLine("```" + info);
    FenceLine("```");
    JoinSplit(t, '\n');
    FenceAround(lines, "```" + info, Split(t, '\n'), "```");
  }

  lemma FenceAround(lines: seq<string>, first: string, body: seq<string>, last: string)
    requires lines == [first] + body + [last]
    requires IsFence(first) && !Blank(first) && IsFence(last)
    ensures ParseFrom(lines, 0) == Finished([Placed(CodeBlock(Language(first), Join(body, '\n')), 0, |lines|)])
            <==> forall l | l in body :: !IsFence(l)
  {
    var n := |lines|;
    assert lines[0] == first && lines[n - 1] == last;
    FenceWhole(lines, body);
  }

  lemma FenceWhole(lines: seq<string>, body: seq<string>)
    requires |lines| >= 2 && lines[1..|lines| - 1] == body
    requires IsFence(lines[0]) && !Blank(lines[0]) && IsFence(lines[|lines| - 1])
    ensures ParseFrom(lines, 0) == Finished([Placed(CodeBlock(Language(lines[0]), Join(body, '\n')), 0, |lines|)])
            <==> forall l | l in body :: !IsFence(l)
  {
    FenceRun(lines, 1, |lines| - 1);
    FenceEnds(lines);
    NoFenceInside(lines, body);
  }

  lemma NoFenceInside(lines: seq<string>, body: seq<string>)
    requires |lines| >= 2 && lines[1..|lines| - 1] == body
    ensures (forall l | l in body :: !IsFence(l)) <==> forall k | 1 <= k < |lines| - 1 :: !IsFence(lines[k])
  {
    assert forall k | 1 <= k < |lines| - 1 :: lines[k] == body[k - 1];
  }

  /** An opening fence takes the whole document exactly when its run ends at the last line. */
  lemma FenceEnds(lines: seq<string>)
    requires |lines| >= 2 && IsFence(lines[0]) && !Blank(lines[0]) && RunEnd(lines, 1, InFence) < |lines|
    ensures ParseFrom(lines, 0) == Finished([FenceBlock(lines, 0, |lines| - 1)])
            <==> RunEnd(lines, 1, InFence) == |lines| - 1
  {
    FenceParse(lines);
    assert FenceBlock(lines, 0, RunEnd(lines, 1, InFence)).to == RunEnd(lines, 1, InFence) + 1;
    assert FenceBlock(lines, 0, |lines| - 1).to == |lines|;
  }

  lemma FenceParse(lines: seq<string>)
    requires |lines| >= 2 && IsFence(lines[0]) && !Blank(lines[0])
    ensures var end := RunEnd(lines, 1, InFence);
            var p := FenceBlock(lines, 0, end);
            && (ParseFrom(lines, 0).Finished? ==>
                  ParseFrom(lines, 0).blocks != [] && ParseFrom(lines, 0).blocks[0] == p)
            && (end >= |lines| - 1 ==> ParseFrom(lines, 0) == Finished([p]))
  {
    FenceFirst(lines);
    ParseFirst(lines, 0, FenceBlock(lines, 0, RunEnd(lines, 1, InFence)));
    ParseEnd(lines);
  }

  lemma FenceFirst(lines: seq<string>)
    requires |lines| >= 2 && IsFence(lines[0])
    ensures BlockAt(lines, 0) == FenceBlock(lines, 0, RunEnd(lines, 1, InFence))
  {
    var end := FenceAt(lines, 0);
  }

  lemma ParseFirst(lines: seq<string>, i: nat, p: Placed)
    requires i < |lines| && !Blank(lines[i]) && p == BlockAt(lines, i) && p.to > i
    ensures ParseFrom(lines, i) == Continue([p], ParseFrom(lines, p.to))
  {}

  lemma ParseEnd(lines: seq<string>)
    ensures ParseFrom(lines, |lines|) == Finished([])
  {}

  // ---- line endings ----

  predicate IsEnding(e: string) { e == "\n" || e == "\r\n" || e == "\r" }

  /** The ending is not part of a longer one. */
  predicate Stands(a: string, e: string, b: string) {
    && (e == "\r" ==> b == "" || b[0] != '\n')
    && (e == "\n" ==> a == "" || a[|a| - 1] != '\r')
  }

  lemma EndingNormalizes(e: string, b: string)
    requires IsEnding(e) && (e == "\r" ==> b == "" || b[0] != '\n')
    ensures NormalizeNewlines(e + b) == "\n" + NormalizeNewlines(b)
  {
    var s := e + b;
    if e == "\r\n" {
      assert s[0] == '\r' && s[1] == '\n' && s[2..] == b;
    } else {
      assert s[0] == e[0] && s[1..] == b;
    }
  }

  lemma {:induction false} NormalizeAround(a: string, e: string, b: string)
    requires IsEnding(e) && Stands(a, e, b)
    ensures NormalizeNewlines(a + (e + b)) == NormalizeNewlines(a) + ("\n" + NormalizeNewlines(b))
    decreases |a|
  {
    var s := a + (e + b);
    if a == "" {
      assert s == e + b;
      EndingNormalizes(e, b);
      assert "" + ("\n" + NormalizeNewlines(b)) == "\n" + NormalizeNewlines(b);
    } else if a[0] == '\r' && |a| > 1 && a[1] == '\n' {
      assert s[2..] == a[2..] + (e + b);
      NormalizeAround(a[2..], e, b);
      Glue("\n", NormalizeNewlines(a[2..]), "\n" + NormalizeNewlines(b));
    } else {
      assert s[1..] == a[1..] + (e + b);
      NormalizeAround(a[1..], e, b);
      NextIsNoFeed(a, e, b);
      Glue([if a[0] == '\r' then '\n' else a[0]], NormalizeNewlines(a[1..]), "\n" + NormalizeNewlines(b));
    }
  }

  lemma Glue(x: string, y: string, z: string)
    ensures x + (y + z) == (x + y) + z
  {}

  lemma NextIsNoFeed(a: string, e: string, b: string)
    requires IsEnding(e) && Stands(a, e, b) && a != "" && !(a[0] == '\r' && |a| > 1 && a[1] == '\n')
    ensures var s := a + (e + b); a[0] == '\r' ==> !(|s| > 1 && s[1] == '\n')
  {
    var s := a + (e + b);
    if |a| == 1 {
      assert s[1] == e[0];
    } else {
      assert s[1] == a[1];
    }
  }

  lemma SplitAround(a: string, b: string, sep: char)
    ensures Split(a + ([sep] + b), sep) == Split(a, sep) + Split(b, sep)
  {
    var parts := Split(a, sep);
    JoinSplit(a, sep);
    var last := parts[|parts| - 1];
    assert last in parts;
    SplitConcat(a, [sep] + b, sep, parts);
    SplitAt(last, b, sep);
    LastBack(parts, Split(b, sep));
  }

  lemma LastBack(parts: seq<string>, rest: seq<string>)
    requires parts != []
    ensures parts[..|parts| - 1] + ([parts[|parts| - 1]] + rest) == parts + rest
  {}

  /** A line feed, a carriage return, or both ends a line: the lines before and after are those of the two texts. */
  lemma LineEndingsSeparate(a: string, e: string, b: string)
    requires IsEnding(e) && Stands(a, e, b)
    ensures Lines(a + (e + b)) == Lines(a) + Lines(b)
  {
    NormalizeAround(a, e, b);
    SplitAround(NormalizeNewlines(a), NormalizeNewlines(b), '\n');
  }
}
