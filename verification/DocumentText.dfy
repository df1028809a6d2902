/** Nothing is invented by the block parser either (public/dominion-markdown.js). */
module DocumentText {
  import opened Sequences
  import opened Text
  import opened MarkdownInline
  import opened MarkdownLaws
  import opened MarkdownBlocks
  import opened DocumentLaws

  function VisibleAll(tss: seq<seq<Token>>): (r: seq<string>)
    ensures |r| == |tss| && forall k | 0 <= k < |r| :: r[k] == Visible(tss[k])
  {
    seq(|tss|, k requires 0 <= k < |tss| => Visible(tss[k]))
  }

  function RowTexts(rows: seq<seq<seq<Token>>>): (r: seq<string>)
    ensures |r| == |rows| && forall k | 0 <= k < |r| :: r[k] == Flatten(VisibleAll(rows[k]))
  {
    seq(|rows|, k requires 0 <= k < |rows| => Flatten(VisibleAll(rows[k])))
  }

  /** The text a reader sees of one block. */
  function BlockText(b: Block): string {
    match b
    case CodeBlock(_, value) => value
    case Heading(_, children) => Visible(children)
    case Rule => ""
    case Table(headers, _, rows) => Flatten(VisibleAll(headers)) + Flatten(RowTexts(rows))
    case List(_, items) => Flatten(VisibleAll(items))
    case Quote(children) => Visible(children)
    case Paragraph(children) => Visible(children)
  }

  function DocumentText(bs: seq<Placed>): string {
    if bs == [] then "" else BlockText(bs[0].block) + DocumentText(bs[1..])
  }

  // ---- joined lines ----

  lemma {:induction false} JoinAppend(a: seq<string>, b: seq<string>, sep: char)
    requires a != [] && b != []
    ensures Join(a + b, sep) == Join(a, sep) + [sep] + Join(b, sep)
    decreases |a|
  {
    if |a| == 1 {
      assert (a + b)[1..] == b;
    } else {
      assert (a + b)[1..] == a[1..] + b;
      JoinAppend(a[1..], b, sep);
      assert a[0] + [sep] + (Join(a[1..], sep) + [sep] + Join(b, sep))
          == (a[0] + [sep] + Join(a[1..], sep)) + [sep] + Join(b, sep);
    }
  }

  /** Piecewise subsequences: with separators between the pieces, or without. */
  lemma {:induction false} JoinPieces(ts: seq<string>, ls: seq<string>, sep: char)
    requires |ts| == |ls| && forall k | 0 <= k < |ts| :: Subsequence(ts[k], ls[k])
    ensures Subsequence(Flatten(ts), Join(ls, sep)) && Subsequence(Join(ts, sep), Join(ls, sep))
    decreases |ts|
  {
    if |ts| == 1 {
      assert Flatten(ts) == ts[0] + Flatten(ts[1..]) == ts[0];
    } else if |ts| > 1 {
      JoinPieces(ts[1..], ls[1..], sep);
      var t, l := Join(ts[1..], sep), Join(ls[1..], sep);
      SubsequenceRefl([sep]);
      SubsequenceConcat(ts[0], ls[0], [sep], [sep]);
      SubsequenceConcat(ts[0] + [sep], ls[0] + [sep], t, l);
      SubsequenceConcat(ts[0], ls[0], [], [sep]);
      SubsequenceConcat(ts[0] + [], ls[0] + [sep], Flatten(ts[1..]), l);
      assert ts[0] + [] == ts[0];
    }
  }

  /** Text found in a stretch of lines and text found after it. */
  lemma JoinParts(x: string, y: string, lines: seq<string>, m: nat)
    requires m <= |lines| && Subsequence(x, Join(lines[..m], '\n')) && Subsequence(y, Join(lines[m..], '\n'))
    ensures Subsequence(x + y, Join(lines, '\n'))
  {
    assert lines == lines[..m] + lines[m..];
    SubsequenceConcat(x, Join(lines[..m], '\n'), y, Join(lines[m..], '\n'));
    if m == 0 || m == |lines| {
      assert lines[..m] == [] || lines[m..] == [];
      assert lines[..m] == [] ==> lines[m..] == lines;
      assert lines[m..] == [] ==> lines[..m] == lines;
      assert Join(lines, '\n') == Join(lines[..m], '\n') + Join(lines[m..], '\n');
    } else {
      JoinAppend(lines[..m], lines[m..], '\n');
      SubsequenceConcat(x, Join(lines[..m], '\n'), [], ['\n']);
      SubsequenceConcat(x + [], Join(lines[..m], '\n') + ['\n'], y, Join(lines[m..], '\n'));
      assert x + [] == x;
    }
  }

  /** Text of a slice of lines occurs in the whole. */
  lemma JoinSlice(x: string, lines: seq<string>, lo: nat, hi: nat)
    requires lo <= hi <= |lines| && Subsequence(x, Join(lines[lo..hi], '\n'))
    ensures Subsequence(x, Join(lines, '\n'))
  {
    assert lines[..hi][lo..] == lines[lo..hi];
    JoinParts("", x, lines[..hi], lo);
    assert "" + x == x;
    JoinParts(x, "", lines, hi);
    assert x + "" == x;
  }

  // ---- one block ----

  lemma SliceText(texts: seq<string>, lines: seq<string>)
    requires |texts| == |lines|
    requires forall k | 0 <= k < |texts| :: Subsequence(texts[k], lines[k])
    ensures Subsequence(Flatten(VisibleAll(InlineAll(texts))), Join(lines, '\n'))
  {
    var shown := VisibleAll(InlineAll(texts));
    forall k | 0 <= k < |shown|
      ensures Subsequence(shown[k], lines[k])
    {
      NothingInvented(texts[k]);
      SubsequenceTrans(shown[k], texts[k], lines[k]);
    }
    JoinPieces(shown, lines, '\n');
  }

  lemma RowBodySlice(line: string)
    ensures Subsequence(RowBody(line), line)
  {
    var lo, hi := RowBodyInside(line);
    TrimSubsequence(line);
    SliceSubsequence(Trim(line), lo, hi);
    SubsequenceTrans(RowBody(line), Trim(line), line);
  }

  lemma RowBodyInside(line: string) returns (lo: nat, hi: nat)
    ensures lo <= hi <= |Trim(line)| && RowBody(line) == Trim(line)[lo..hi]
  {
    var v := Trim(line);
    lo := if "|" <= v then 1 else 0;
    var w := v[lo..];
    hi := if w != "" && w[|w| - 1] == '|' then |v| - 1 else |v|;
  }

  /** The cells of a table row show, in order, only what the line holds. */
  lemma RowText(line: string)
    ensures Subsequence(Flatten(VisibleAll(InlineAll(SplitTableRow(line)))), line)
  {
    var parts := Split(RowBody(line), '|');
    var cells := SplitTableRow(line);
    var shown := VisibleAll(InlineAll(cells));
    forall k | 0 <= k < |shown|
      ensures Subsequence(shown[k], parts[k])
    {
      NothingInvented(cells[k]);
      TrimSubsequence(parts[k]);
      SubsequenceTrans(shown[k], cells[k], parts[k]);
    }
    JoinPieces(shown, parts, '|');
    JoinSplit(RowBody(line), '|');
    RowBodySlice(line);
    SubsequenceTrans(Flatten(shown), RowBody(line), line);
  }

  lemma RowsText(lines: seq<string>)
    ensures Subsequence(Flatten(RowTexts(RowsOf(lines))), Join(lines, '\n'))
  {
    var rows := RowTexts(RowsOf(lines));
    forall k | 0 <= k < |rows|
      ensures Subsequence(rows[k], lines[k])
    {
      RowText(lines[k]);
    }
    JoinPieces(rows, lines, '\n');
  }

  /** A header line, a divider that shows nothing, and the rest. */
  lemma HeaderAndRows(x: string, y: string, span: seq<string>)
    requires |span| >= 2 && Subsequence(x, span[0]) && Subsequence(y, Join(span[2..], '\n'))
    ensures Subsequence(x + y, Join(span, '\n'))
  {
    assert span[..2][0..1] == [span[0]];
    JoinSlice(x, span[..2], 0, 1);
    JoinParts(x, y, span, 2);
  }

  lemma TableText(lines: seq<string>, i: nat, end: nat)
    requires i + 2 <= end <= |lines|
    ensures Subsequence(BlockText(TableBlock(lines, i, end).block), Join(lines[i..end], '\n'))
  {
    var span := lines[i..end];
    assert span[2..] == lines[i + 2..end] && span[0] == lines[i];
    RowText(span[0]);
    RowsText(span[2..]);
    TableShows(InlineAll(SplitTableRow(span[0])), AlignAll(SplitTableRow(lines[i + 1])), RowsOf(span[2..]), span);
  }

  lemma TableShows(headers: seq<seq<Token>>, alignment: seq<Align>, rows: seq<seq<seq<Token>>>, span: seq<string>)
    requires |span| >= 2 && Subsequence(Flatten(VisibleAll(headers)), span[0])
    requires Subsequence(Flatten(RowTexts(rows)), Join(span[2..], '\n'))
    ensures Subsequence(BlockText(Table(headers, alignment, rows)), Join(span, '\n'))
  {
    HeaderAndRows(Flatten(VisibleAll(headers)), Flatten(RowTexts(rows)), span);
  }

  lemma TailOfLine(t: string, line: string, n: nat)
    requires n <= |line| && t == line[n..]
    ensures Subsequence(t, line)
  {
    assert line[n..|line|] == line[n..];
    SliceSubsequence(line, n, |line|);
  }

  lemma ItemSlice(line: string, ordered: bool)
    requires ItemText(line, ordered).Some?
    ensures Subsequence(ItemText(line, ordered).value, line)
  {
    TailOfLine(ItemText(line, ordered).value, line, ItemStart(line, MarkerEnd(line, ordered)).value);
  }

  lemma QuoteSlice(line: string)
    requires IsQuote(line)
    ensures Subsequence(StripQuote(line), line)
  {
    TailOfLine(StripQuote(line), line, |line| - |StripQuote(line)|);
  }

  lemma ItemsText(lines: seq<string>, ordered: bool)
    requires forall k | 0 <= k < |lines| :: ItemText(lines[k], ordered).Some?
    ensures Subsequence(Flatten(VisibleAll(InlineAll(Items(lines, ordered)))), Join(lines, '\n'))
  {
    var items := Items(lines, ordered);
    forall k | 0 <= k < |items|
      ensures Subsequence(items[k], lines[k])
    {
      ItemSlice(lines[k], ordered);
    }
    SliceText(items, lines);
  }

  lemma InlineText(t: string, whole: string)
    requires Subsequence(t, whole)
    ensures Subsequence(Visible(Inline(t)), whole)
  {
    NothingInvented(t);
    SubsequenceTrans(Visible(Inline(t)), t, whole);
  }

  lemma QuoteText(lines: seq<string>)
    requires forall k | 0 <= k < |lines| :: IsQuote(lines[k])
    ensures Subsequence(Visible(Inline(Join(Quoted(lines), '\n'))), Join(lines, '\n'))
  {
    var quoted := Quoted(lines);
    forall k | 0 <= k < |quoted|
      ensures Subsequence(quoted[k], lines[k])
    {
      QuoteSlice(lines[k]);
    }
    JoinPieces(quoted, lines, '\n');
    InlineText(Join(quoted, '\n'), Join(lines, '\n'));
  }

  lemma FenceText(lines: seq<string>, i: nat, end: nat)
    requires i < end <= |lines|
    ensures var p := FenceBlock(lines, i, end); Subsequence(BlockText(p.block), Join(lines[i..p.to], '\n'))
  {
    var to := FenceBlock(lines, i, end).to;
    assert lines[i..to][1..end - i] == lines[i + 1..end];
    SubsequenceRefl(Join(lines[i + 1..end], '\n'));
    JoinSlice(Join(lines[i + 1..end], '\n'), lines[i..to], 1, end - i);
  }

  lemma HeadingBlockText(lines: seq<string>, i: nat)
    requires i < |lines| && MatchHeading(lines[i]).HeadingMatch?
    ensures Subsequence(BlockText(HeadingBlock(lines, i).block), Join(lines[i..i + 1], '\n'))
  {
    var m := MatchHeading(lines[i]);
    SliceSubsequence(lines[i], m.from, m.to);
    InlineText(lines[i][m.from..m.to], lines[i]);
    assert lines[i..i + 1] == [lines[i]];
  }

  lemma ParagraphText(lines: seq<string>, i: nat, end: nat)
    requires i < end <= |lines|
    ensures Subsequence(BlockText(ParagraphBlock(lines, i, end).block), Join(lines[i..end], '\n'))
  {
    NothingInvented(Join(lines[i..end], '\n'));
  }

  lemma ListText(lines: seq<string>, i: nat, ordered: bool, end: nat)
    requires i <= end <= |lines| && forall k | i <= k < end :: ItemText(lines[k], ordered).Some?
    ensures Subsequence(BlockText(ListBlock(lines, i, ordered, end).block), Join(lines[i..end], '\n'))
  {
    ItemsText(lines[i..end], ordered);
  }

  lemma QuoteBlockText(lines: seq<string>, i: nat, end: nat)
    requires i <= end <= |lines| && forall k | i <= k < end :: IsQuote(lines[k])
    ensures Subsequence(BlockText(QuoteBlock(lines, i, end).block), Join(lines[i..end], '\n'))
  {
    QuoteText(lines[i..end]);
  }

  predicate ShowsOnly(p: Placed, lines: seq<string>) {
    p.from <= p.to <= |lines| && Subsequence(BlockText(p.block), Join(lines[p.from..p.to], '\n'))
  }

  lemma RuleAtText(lines: seq<string>, i: nat)
    requires i < |lines| && KindAt(lines, i) == RuleKind
    ensures ShowsOnly(BlockAt(lines, i), lines)
  {}

  lemma HeadingAtText(lines: seq<string>, i: nat)
    requires i < |lines| && KindAt(lines, i) == HeadingKind
    ensures ShowsOnly(BlockAt(lines, i), lines)
  {
    HeadingBlockText(lines, i);
  }

  /** Every block shows, in order, only what its own lines hold. */
  lemma BlockInventsNothing(lines: seq<string>, i: nat)
    requires i < |lines|
    ensures ShowsOnly(BlockAt(lines, i), lines)
  {
    match KindAt(lines, i) {
      case FenceKind =>
        var end := FenceAt(lines, i);
        FenceText(lines, i, end);
      case HeadingKind => HeadingAtText(lines, i);
      case RuleKind => RuleAtText(lines, i);
      case TableKind =>
        var end := TableAt(lines, i);
        TableText(lines, i, end);
      case ListKind =>
        var ordered, end := ListAt(lines, i);
        ListText(lines, i, ordered, end);
      case QuoteKind =>
        var end := QuoteAt(lines, i);
        QuoteBlockText(lines, i, end);
      case ParagraphKind =>
        var end := ParagraphAt(lines, i);
        ParagraphText(lines, i, end);
    }
  }

  lemma TextExtends(x: string, y: string, lines: seq<string>, i: nat, next: nat)
    requires i <= next <= |lines|
    requires Subsequence(x, Join(lines[i..next], '\n')) && Subsequence(y, Join(lines[next..], '\n'))
    ensures Subsequence(x + y, Join(lines[i..], '\n'))
  {
    assert lines[i..][next - i..] == lines[next..] && lines[i..][..next - i] == lines[i..next];
    JoinParts(x, y, lines[i..], next - i);
  }

  lemma {:induction false} BlocksInventNothing(lines: seq<string>, i: nat)
    requires i <= |lines| && ParseFrom(lines, i).Finished?
    ensures Subsequence(DocumentText(ParseFrom(lines, i).blocks), Join(lines[i..], '\n'))
    decreases |lines| - i
  {
    if i < |lines| {
      var bs := ParseFrom(lines, i).blocks;
      if Blank(lines[i]) {
        BlocksInventNothing(lines, i + 1);
        TextExtends("", DocumentText(bs), lines, i, i + 1);
        assert "" + DocumentText(bs) == DocumentText(bs);
      } else {
        ParseOne(lines, i);
        BlocksInventNothing(lines, bs[0].to);
        BlockInventsNothing(lines, i);
        TextExtends(BlockText(bs[0].block), DocumentText(bs[1..]), lines, i, bs[0].to);
      }
    }
  }

  /**
   For every text that the parser finishes, what all blocks show together is a subsequence of the
   text with normalized newlines.
   */
  lemma DocumentInventsNothing(text: string)
    requires ParseFrom(Lines(text), 0).Finished?
    ensures Subsequence(DocumentText(ParseFrom(Lines(text), 0).blocks), NormalizeNewlines(text))
  {
    BlocksInventNothing(Lines(text), 0);
    assert Lines(text)[0..] == Lines(text);
    JoinSplit(NormalizeNewlines(text), '\n');
  }
}
