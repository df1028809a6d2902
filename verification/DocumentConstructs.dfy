/** Paragraphs, lists and tables are recognized for what they are (public/dominion-markdown.js). */
module DocumentConstructs {
  import opened Sequences
  import opened Text
  import opened MarkdownInline
  import opened MarkdownBlocks
  import opened DocumentLaws
  import opened MarkdownConstructs

  // ---- paragraphs ----

  /** No branch of the block loop before the last one takes the first line. */
  predicate OpensParagraph(lines: seq<string>)
    requires lines != []
  {
    var line := lines[0];
    && !Blank(line) && !IsFence(line) && MatchHeading(line).NoHeading? && !IsRule(line)
    && !('|' in line && |lines| > 1 && IsTableDivider(lines[1]))
    && !IsBullet(line) && !IsOrdered(line) && !IsQuote(line)
  }

  /** No later line starts a block. */
  predicate RunsOn(lines: seq<string>) {
    forall k | 1 <= k < |lines| :: !StartsBlock(lines[k], LineAt(lines, k + 1))
  }

  lemma {:induction false} ParagraphRunsOn(lines: seq<string>, i: nat)
    requires i <= |lines| && forall k | i <= k < |lines| :: !StartsBlock(lines[k], LineAt(lines, k + 1))
    ensures RunEnd(lines, i, InParagraph) == |lines|
    decreases |lines| - i
  {
    if i < |lines| { ParagraphRunsOn(lines, i + 1); }
  }

  lemma ParagraphReaches(lines: seq<string>)
    requires lines != []
    ensures RunEnd(lines, 1, InParagraph) == |lines| <==> RunsOn(lines)
  {
    var end := RunEnd(lines, 1, InParagraph);
    assert forall k | 1 <= k < end :: InParagraph(lines[k], LineAt(lines, k + 1));
    if RunsOn(lines) { ParagraphRunsOn(lines, 1); }
  }

  lemma OpensIsKind(lines: seq<string>)
    requires lines != []
    ensures OpensParagraph(lines) <==> !Blank(lines[0]) && KindAt(lines, 0) == ParagraphKind
  {}

  /** Only the last branch of the block loop builds paragraphs. */
  lemma ParagraphNeedsKind(lines: seq<string>)
    requires lines != [] && BlockAt(lines, 0).block.Paragraph?
    ensures KindAt(lines, 0) == ParagraphKind
  {
    BlockDispatched(lines, 0, KindAt(lines, 0));
  }

  lemma FirstOfBlocks(lines: seq<string>, p: Placed)
    requires lines != [] && ParseFrom(lines, 0) == Finished([p]) && p.from == 0
    ensures !Blank(lines[0]) && BlockAt(lines, 0) == p
  {
    if Blank(lines[0]) {
      ParseBlank(lines, 0);
      LaterBlocks(lines, 1);
    } else {
      ParseOne(lines, 0);
      assert [p][0] == p;
    }
  }

  lemma {:induction false} LaterBlocks(lines: seq<string>, i: nat)
    requires i <= |lines| && ParseFrom(lines, i).Finished? && ParseFrom(lines, i).blocks != []
    ensures ParseFrom(lines, i).blocks[0].from >= i
    decreases |lines| - i
  {
    if i < |lines| {
      if Blank(lines[i]) {
        ParseBlank(lines, i);
        LaterBlocks(lines, i + 1);
      } else {
        ParseOne(lines, i);
      }
    }
  }

  /**
   Lines are one paragraph with the inline parse of all of them exactly when no earlier branch of the
   block loop takes the first line and no later line starts a block.
   */
  lemma ParagraphExactly(lines: seq<string>)
    requires lines != []
    ensures ParseFrom(lines, 0) == Finished([Placed(Paragraph(Inline(Join(lines, '\n'))), 0, |lines|)])
            <==> OpensParagraph(lines) && RunsOn(lines)
  {
    var p := Placed(Paragraph(Inline(Join(lines, '\n'))), 0, |lines|);
    OpensIsKind(lines);
    ParagraphReaches(lines);
    if OpensParagraph(lines) {
      var end := ParagraphAt(lines, 0);
      assert lines[0..|lines|] == lines;
      if RunsOn(lines) { OneBlock(lines, p); }
    }
    if ParseFrom(lines, 0) == Finished([p]) {
      FirstOfBlocks(lines, p);
      ParagraphNeedsKind(lines);
    }
  }

  // ---- lists ----

  /** A bullet, or digits and a dot or a parenthesis. */
  predicate IsMark(mark: string, ordered: bool) {
    if ordered then
      && |mark| >= 2 && (forall k | 0 <= k < |mark| - 1 :: IsDigit(mark[k]))
      && (mark[|mark| - 1] == '.' || mark[|mark| - 1] == ')')
    else mark == "-" || mark == "+" || mark == "*"
  }

  /** Something to show, and no line terminator in it. */
  predicate IsItem(s: string) { TrimStart(s) != "" && NoTerminators(TrimStart(s)) }

  function ItemLine(mark: string, s: string): string { mark + " " + s }

  lemma MarkIsSolid(mark: string, ordered: bool)
    requires IsMark(mark, ordered)
    ensures mark != "" && !IsSpace(mark[0]) && mark[0] != '|' && mark[0] != '>' && mark[0] != ':'
    ensures forall k | 0 <= k < |mark| :: mark[k] != '|'
  {}

  lemma MarkEnds(mark: string, s: string, ordered: bool)
    requires IsMark(mark, ordered)
    ensures var line := ItemLine(mark, s);
            && MarkerEnd(line, ordered) == |mark| && (!ordered ==> OrderedEnd(line) == 0)
            && Lead(line) == 0 && line[|mark|..] == " " + s
  {
    var line := ItemLine(mark, s);
    MarkIsSolid(mark, ordered);
    assert line[0] == mark[0] && line[0..] == line && line == mark + (" " + s);
    assert line[|mark|..] == " " + s;
    RunLengthUnique(IsSpace, line, 0);
    if ordered {
      var n := |mark| - 1;
      assert forall k | 0 <= k < n :: line[k] == mark[k];
      assert line[n] == mark[n];
      RunLengthUnique(IsDigit, line, n);
    } else {
      RunLengthUnique(IsDigit, line, 0);
    }
  }

  lemma GapBefore(s: string)
    ensures RunLength(IsSpace, " " + s) == 1 + RunLength(IsSpace, s)
  {
    assert (" " + s)[1..] == s;
  }

  /** The line is an item of its kind, and its text starts where the first solid character stands. */
  lemma ItemLineReads(mark: string, s: string, ordered: bool)
    requires IsMark(mark, ordered) && IsItem(s)
    ensures var line := ItemLine(mark, s);
            && StartsList(line) && IsOrdered(line) == ordered && ItemText(line, ordered) == Some(TrimStart(s))
  {
    var line := ItemLine(mark, s);
    MarkEnds(mark, s, ordered);
    GapBefore(s);
    var p := |mark| + 1 + RunLength(IsSpace, s);
    assert p < |line|;
    assert line[p..] == TrimStart(s) by {
      assert line[p..] == (" " + s)[p - |mark|..] == s[RunLength(IsSpace, s)..];
    }
    ItemStarts(line, |mark|, p);
    assert SpacedText(line, |mark|);
  }

  lemma ItemStarts(line: string, a: nat, p: nat)
    requires 0 < a < p < |line| && p == a + RunLength(IsSpace, line[a..]) && NoTerminators(line[p..])
    ensures ItemStart(line, a) == Some(p)
  {}

  /** An item line is never a table divider: its first cell starts with the mark. */
  lemma ItemLineIsNoDivider(mark: string, s: string, ordered: bool)
    requires IsMark(mark, ordered)
    ensures !IsTableDivider(ItemLine(mark, s))
  {
    var line := ItemLine(mark, s);
    MarkIsSolid(mark, ordered);
    var first := FirstCell(line, mark);
    var cell := Trim(first);
    MarkKept(first, mark);
    MarkKept(cell, mark);
    MarkIsNoDash(Trim(cell), mark, ordered);
  }

  /** A cell that is the mark, or the mark and a space and more. */
  predicate MarkFirst(cell: string, mark: string) {
    mark <= cell && (|cell| > |mark| ==> IsSpace(cell[|mark|]))
  }

  lemma MarkIsNoDash(cell: string, mark: string, ordered: bool)
    requires IsMark(mark, ordered) && MarkFirst(cell, mark)
    ensures !IsDividerCell(cell)
  {
    assert cell[0] == mark[0] != ':';
    if ordered {
      RunLengthUnique(IsDash, cell, 0);
    } else {
      assert |cell| > 1 ==> cell[1] == cell[|mark|];
      assert RunLength(IsDash, cell) <= 1;
    }
  }

  lemma MarkKept(cell: string, mark: string)
    requires mark != "" && !IsSpace(mark[0]) && !IsSpace(mark[|mark| - 1]) && MarkFirst(cell, mark)
    ensures MarkFirst(Trim(cell), mark)
  {
    RunLengthUnique(IsSpace, cell, 0);
    assert cell[0] == mark[0] && TrimStart(cell) == cell;
    var t := TrimEnd(cell);
    assert cell[|mark| - 1] == mark[|mark| - 1];
    assert |t| >= |mark|;
    assert t[..|mark|] == cell[..|mark|] == mark;
  }

  lemma FirstCell(line: string, mark: string) returns (first: string)
    requires mark != "" && !IsSpace(mark[0]) && !IsSpace(mark[|mark| - 1]) && '|' !in mark && MarkFirst(line, mark)
    ensures first == Split(RowBody(line), '|')[0] && MarkFirst(first, mark)
  {
    first := Split(RowBody(line), '|')[0];
    MarkKept(line, mark);
    var v := Trim(line);
    assert v[0] == mark[0] != '|';
    BodyKeepsMark(v, mark);
    FirstPart(RowBody(line), mark);
  }

  lemma BodyKeepsMark(v: string, mark: string)
    requires mark != "" && '|' !in mark && MarkFirst(v, mark)
    ensures v[|v| - 1] == '|' ==> MarkFirst(v[..|v| - 1], mark)
  {
    assert |v| == |mark| ==> v == mark;
    assert v[|v| - 1] == '|' ==> v[..|v| - 1][..|mark|] == mark;
  }

  lemma FirstPart(s: string, mark: string)
    requires mark != "" && '|' !in mark && MarkFirst(s, mark)
    ensures MarkFirst(Split(s, '|')[0], mark)
  {
    if '|' in s {
      var n := FirstAt(s, '|');
      assert forall k | 0 <= k < |mark| :: s[k] == mark[k] != '|';
      SplitAt(s[..n], s[n + 1..], '|');
      assert s == s[..n] + (['|'] + s[n + 1..]);
      assert s[..n][..|mark|] == mark;
    } else {
      SplitWhole(s, '|');
    }
  }

  function ItemLines(marks: seq<string>, texts: seq<string>): (r: seq<string>)
    requires |marks| == |texts|
    ensures |r| == |marks| && forall k | 0 <= k < |r| :: r[k] == ItemLine(marks[k], texts[k])
  {
    seq(|marks|, k requires 0 <= k < |marks| => ItemLine(marks[k], texts[k]))
  }

  lemma {:induction false} ItemsRunOn(lines: seq<string>, i: nat, ordered: bool)
    requires i <= |lines| && forall k | i <= k < |lines| :: ItemText(lines[k], ordered).Some?
    ensures RunEnd(lines, i, InList(ordered)) == |lines|
    decreases |lines| - i
  {
    if i < |lines| {
      assert InList(ordered)(lines[i], LineAt(lines, i + 1));
      ItemsRunOn(lines, i + 1, ordered);
    }
  }

  function ItemTexts(texts: seq<string>): (r: seq<string>)
    ensures |r| == |texts| && forall k | 0 <= k < |r| :: r[k] == TrimStart(texts[k])
  {
    seq(|texts|, k requires 0 <= k < |texts| => TrimStart(texts[k]))
  }

  lemma ListOpens(lines: seq<string>)
    requires lines != [] && StartsList(lines[0]) && (|lines| > 1 ==> !IsTableDivider(lines[1]))
    ensures KindAt(lines, 0) == ListKind && !Blank(lines[0])
  {
    ListLineIsNoFence(lines[0]);
    ListLineIsNoHeading(lines[0]);
    ListLineIsNoRule(lines[0]);
  }

  /**
   Marks of one kind, each with a space and a text, are one list with the inline parse of every text
   in order.
   */
  lemma ListRoundTrip(marks: seq<string>, texts: seq<string>, ordered: bool)
    requires |marks| == |texts| > 0
    requires forall k | 0 <= k < |marks| :: IsMark(marks[k], ordered) && IsItem(texts[k])
    ensures ParseFrom(ItemLines(marks, texts), 0)
            == Finished([Placed(List(ordered, InlineAll(ItemTexts(texts))), 0, |texts|)])
  {
    var lines := ItemLines(marks, texts);
    forall k | 0 <= k < |lines|
      ensures StartsList(lines[k]) && IsOrdered(lines[k]) == ordered
      ensures ItemText(lines[k], ordered) == Some(TrimStart(texts[k])) && !IsTableDivider(lines[k])
    {
      ItemLineReads(marks[k], texts[k], ordered);
      ItemLineIsNoDivider(marks[k], texts[k], ordered);
    }
    ListMade(lines, ItemTexts(texts), ordered);
  }

  /** A document that is one list of the texts its lines were read as. */
  lemma ListMade(lines: seq<string>, items: seq<string>, ordered: bool)
    requires |lines| == |items| > 0 && forall k | 0 <= k < |lines| :: ItemText(lines[k], ordered) == Some(items[k])
    requires StartsList(lines[0]) && IsOrdered(lines[0]) == ordered && (|lines| > 1 ==> !IsTableDivider(lines[1]))
    ensures ParseFrom(lines, 0) == Finished([Placed(List(ordered, InlineAll(items)), 0, |lines|)])
  {
    ListOpens(lines);
    ItemsRunOn(lines, 0, ordered);
    var kind, end := ListAt(lines, 0);
    ItemsAre(lines, items, ordered);
    OneBlock(lines, BlockAt(lines, 0));
  }

  lemma ItemsAre(lines: seq<string>, items: seq<string>, ordered: bool)
    requires |lines| == |items| && forall k | 0 <= k < |lines| :: ItemText(lines[k], ordered) == Some(items[k])
    ensures ListBlock(lines, 0, ordered, |lines|) == Placed(List(ordered, InlineAll(items)), 0, |lines|)
  {
    assert lines[0..|lines|] == lines;
    assert Items(lines, ordered) == items;
  }

  // ---- tables ----

  /** A row between outer bars. */
  function Row(cells: seq<string>): string { "|" + Join(cells, '|') + "|" }

  predicate NoBars(cells: seq<string>) { cells != [] && forall c | c in cells :: '|' !in c }

  lemma RowReads(cells: seq<string>)
    requires NoBars(cells)
    ensures SplitTableRow(Row(cells)) == TrimAll(cells) && Trim(Row(cells)) == Row(cells)
  {
    var line, body := Row(cells), Join(cells, '|');
    assert line[0] == '|' && line[|line| - 1] == '|';
    TrimOf("", line, "");
    assert "" + line + "" == line;
    assert line[1..] == body + "|" && (body + "|")[..|body|] == body;
    assert RowBody(line) == body;
    SplitJoin(cells, '|');
  }

  /** The divider cell of an alignment. */
  function Dashes(a: Align): string {
    match a
    case LeftAlign => "---"
    case CenterAlign => ":---:"
    case RightAlign => "---:"
  }

  function AllDashes(aligns: seq<Align>): (r: seq<string>)
    ensures |r| == |aligns| && forall k | 0 <= k < |r| :: r[k] == Dashes(aligns[k])
  {
    seq(|aligns|, k requires 0 <= k < |aligns| => Dashes(aligns[k]))
  }

  lemma DashesAlign(a: Align)
    ensures Trim(Dashes(a)) == Dashes(a) && IsDividerCell(Dashes(a)) && AlignOf(Dashes(a)) == a && '|' !in Dashes(a)
  {
    DashesTrim(a);
    DashesDivide(a);
  }

  lemma DashesTrim(a: Align)
    ensures Trim(Dashes(a)) == Dashes(a)
  {
    var d := Dashes(a);
    TrimOf("", d, "");
    assert "" + d + "" == d;
  }

  lemma DashesDivide(a: Align)
    ensures IsDividerCell(Dashes(a))
  {
    RunLengthUnique(IsDash, "---", 3);
    RunLengthUnique(IsDash, "---:", 3);
    assert ":---:"[1..] == "---:";
  }

  lemma DividerReads(aligns: seq<Align>)
    requires |aligns| >= 2
    ensures IsTableDivider(Row(AllDashes(aligns))) && AlignAll(SplitTableRow(Row(AllDashes(aligns)))) == aligns
  {
    var cells := AllDashes(aligns);
    DashesRead(aligns);
    RowReads(cells);
    DividerFrom(Row(cells), cells);
  }

  lemma DashesRead(aligns: seq<Align>)
    requires aligns != []
    ensures var cells := AllDashes(aligns);
            NoBars(cells) && TrimAll(cells) == cells && AllDividers(cells) && AlignAll(cells) == aligns
  {
    var cells := AllDashes(aligns);
    forall k | 0 <= k < |cells|
      ensures Trim(cells[k]) == cells[k] && IsDividerCell(cells[k]) && AlignOf(cells[k]) == aligns[k]
      ensures '|' !in cells[k]
    {
      DashesAlign(aligns[k]);
    }
    assert TrimAll(cells) == cells;
  }

  predicate AllDividers(cells: seq<string>) {
    forall k | 0 <= k < |cells| :: IsDividerCell(Trim(cells[k]))
  }

  lemma DividerFrom(line: string, cells: seq<string>)
    requires SplitTableRow(line) == cells && |cells| >= 2 && AllDividers(cells)
    ensures IsTableDivider(line)
  {}

  /** One column is no table. */
  lemma DividerExactly(aligns: seq<Align>)
    requires aligns != []
    ensures IsTableDivider(Row(AllDashes(aligns))) <==> |aligns| >= 2
  {
    if |aligns| >= 2 {
      DividerReads(aligns);
    } else {
      DashesAlign(aligns[0]);
      RowReads(AllDashes(aligns));
    }
  }

  lemma RowOpensTable(lines: seq<string>, cells: seq<string>)
    requires |lines| > 1 && NoBars(cells) && lines[0] == Row(cells) && IsTableDivider(lines[1])
    ensures KindAt(lines, 0) == TableKind && !Blank(lines[0])
  {
    BarOpensNothing(lines[0]);
    NotBlank(lines[0], 0);
  }

  lemma BarOpensNothing(line: string)
    requires line != "" && line[0] == '|'
    ensures !IsFence(line) && MatchHeading(line).NoHeading? && !IsRule(line) && '|' in line
  {
    RunLengthUnique(IsSpace, line, 0);
    assert line[0..] == line;
    RunLengthUnique(IsDash, line, 0);
    RunLengthUnique(IsStar, line, 0);
    RunLengthUnique(IsUnderscore, line, 0);
  }

  lemma {:induction false} RowsRunOn(lines: seq<string>, i: nat)
    requires i <= |lines| && forall k | i <= k < |lines| :: InTable(lines[k], "")
    ensures RunEnd(lines, i, InTable) == |lines|
    decreases |lines| - i
  {
    if i < |lines| { RowsRunOn(lines, i + 1); }
  }

  function RowLines(rows: seq<seq<string>>): (r: seq<string>)
    ensures |r| == |rows| && forall k | 0 <= k < |r| :: r[k] == Row(rows[k])
  {
    seq(|rows|, k requires 0 <= k < |rows| => Row(rows[k]))
  }

  function TableLines(header: seq<string>, aligns: seq<Align>, rows: seq<seq<string>>): seq<string> {
    [Row(header), Row(AllDashes(aligns))] + RowLines(rows)
  }

  function CellsOf(rows: seq<seq<string>>): (r: seq<seq<seq<Token>>>)
    ensures |r| == |rows| && forall k | 0 <= k < |r| :: r[k] == InlineAll(TrimAll(rows[k]))
  {
    seq(|rows|, k requires 0 <= k < |rows| => InlineAll(TrimAll(rows[k])))
  }

  lemma RowsRead(rows: seq<seq<string>>)
    requires forall k | 0 <= k < |rows| :: NoBars(rows[k])
    ensures RowsOf(RowLines(rows)) == CellsOf(rows)
    ensures forall k | 0 <= k < |rows| :: InTable(RowLines(rows)[k], "")
  {
    forall k | 0 <= k < |rows|
      ensures RowsOf(RowLines(rows))[k] == CellsOf(rows)[k] && InTable(RowLines(rows)[k], "")
    {
      RowReads(rows[k]);
      NotBlank(Row(rows[k]), 0);
      BarOpensNothing(Row(rows[k]));
    }
  }

  /**
   A header, alignments for at least two columns, and any rows of any length parse to one table with
   these alignments and the inline parse of every trimmed cell.
   */
  lemma TableRoundTrip(header: seq<string>, aligns: seq<Align>, rows: seq<seq<string>>)
    requires NoBars(header) && |aligns| >= 2 && forall k | 0 <= k < |rows| :: NoBars(rows[k])
    ensures ParseFrom(TableLines(header, aligns, rows), 0)
            == Finished([Placed(Table(InlineAll(TrimAll(header)), aligns, CellsOf(rows)), 0, |rows| + 2)])
  {
    var lines := TableLines(header, aligns, rows);
    TableShape(header, aligns, rows);
    DividerReads(aligns);
    RowOpensTable(lines, header);
    RowReads(header);
    RowsRead(rows);
    TableLinesRunOn(lines, RowLines(rows));
    TableMade(lines, TrimAll(header), aligns, CellsOf(rows));
  }

  lemma TableShape(header: seq<string>, aligns: seq<Align>, rows: seq<seq<string>>)
    ensures var lines := TableLines(header, aligns, rows);
            && |lines| == |rows| + 2 && lines[0] == Row(header) && lines[1] == Row(AllDashes(aligns))
            && lines[2..] == RowLines(rows)
  {}

  lemma TableLinesRunOn(lines: seq<string>, rest: seq<string>)
    requires |lines| >= 2 && lines[2..] == rest && forall k | 0 <= k < |rest| :: InTable(rest[k], "")
    ensures RunEnd(lines, 2, InTable) == |lines|
  {
    assert forall k | 2 <= k < |lines| :: lines[k] == rest[k - 2];
    RowsRunOn(lines, 2);
  }

  /** A document that is one table with what its lines were read as. */
  lemma TableMade(lines: seq<string>, header: seq<string>, aligns: seq<Align>, rows: seq<seq<seq<Token>>>)
    requires |lines| >= 2 && KindAt(lines, 0) == TableKind && !Blank(lines[0])
    requires RunEnd(lines, 2, InTable) == |lines| && SplitTableRow(lines[0]) == header
    requires AlignAll(SplitTableRow(lines[1])) == aligns && RowsOf(lines[2..]) == rows
    ensures ParseFrom(lines, 0) == Finished([Placed(Table(InlineAll(header), aligns, rows), 0, |lines|)])
  {
    var end := TableAt(lines, 0);
    TableBlockIs(lines, header, aligns, rows);
    OneBlock(lines, Placed(Table(InlineAll(header), aligns, rows), 0, |lines|));
  }

  lemma TableBlockIs(lines: seq<string>, header: seq<string>, aligns: seq<Align>, rows: seq<seq<seq<Token>>>)
    requires |lines| >= 2 && SplitTableRow(lines[0]) == header
    requires AlignAll(SplitTableRow(lines[1])) == aligns && RowsOf(lines[2..]) == rows
    ensures TableBlock(lines, 0, |lines|) == Placed(Table(InlineAll(header), aligns, rows), 0, |lines|)
  {
    assert lines[2..|lines|] == lines[2..];
  }

  // ---- indents, rules and languages ----

  /** A line that starts solid, behind whitespace. */
  lemma IndentReads(w: string, line: string)
    requires AllSpace(w) && line != "" && !IsSpace(line[0])
    ensures Lead(w + line) == |w| && (w + line)[|w|..] == line && Lead(line) == 0 && line[0..] == line
  {
    Indented(w, line);
    RunLengthUnique(IsSpace, line, 0);
  }

  lemma SpacedAfter(w: string, line: string, a: nat)
    requires a <= |line|
    ensures SpacedText(w + line, |w| + a) <==> SpacedText(line, a)
  {
    assert (w + line)[|w| + a..] == line[a..];
  }

  lemma BulletIndent(w: string, line: string)
    requires AllSpace(w) && line != "" && !IsSpace(line[0])
    ensures IsBullet(w + line) <==> |w| <= 3 && IsBullet(line)
  {
    IndentReads(w, line);
    assert (w + line)[|w|] == line[0];
    if BulletEnd(line) > 0 { SpacedAfter(w, line, 1); }
  }

  lemma OrderedEndIndent(w: string, line: string)
    requires AllSpace(w) && line != "" && !IsSpace(line[0])
    ensures OrderedEnd(w + line) == if |w| <= 3 && OrderedEnd(line) > 0 then |w| + OrderedEnd(line) else 0
  {
    IndentReads(w, line);
    assert forall k | 0 <= k < |line| :: (w + line)[|w| + k] == line[k];
  }

  lemma OrderedIndent(w: string, line: string)
    requires AllSpace(w) && line != "" && !IsSpace(line[0])
    ensures IsOrdered(w + line) <==> |w| <= 3 && IsOrdered(line)
  {
    OrderedEndIndent(w, line);
    SpacedAfter(w, line, OrderedEnd(line));
  }

  lemma HeadingIndent(w: string, line: string)
    requires AllSpace(w) && line != "" && !IsSpace(line[0])
    ensures IsHeading(w + line) <==> |w| <= 3 && IsHeading(line)
  {
    IndentReads(w, line);
    SpacedAfter(w, line, RunLength(IsHash, line));
  }

  lemma QuoteAndRuleIndent(w: string, line: string)
    requires AllSpace(w) && line != "" && !IsSpace(line[0])
    ensures IsQuote(w + line) <==> |w| <= 3 && IsQuote(line)
    ensures IsRule(w + line) <==> |w| <= 3 && IsRule(line)
    ensures IsFence(w + line) <==> IsFence(line)
  {
    IndentReads(w, line);
    assert (w + line)[|w|] == line[0];
  }

  /** Up to three spaces before a mark do not matter, and more unmake it; before a fence none matter. */
  lemma IndentExactly(w: string, line: string)
    requires AllSpace(w) && line != "" && !IsSpace(line[0])
    ensures IsBullet(w + line) <==> |w| <= 3 && IsBullet(line)
    ensures IsOrdered(w + line) <==> |w| <= 3 && IsOrdered(line)
    ensures IsHeading(w + line) <==> |w| <= 3 && IsHeading(line)
    ensures IsQuote(w + line) <==> |w| <= 3 && IsQuote(line)
    ensures IsRule(w + line) <==> |w| <= 3 && IsRule(line)
    ensures IsFence(w + line) <==> IsFence(line)
  {
    BulletIndent(w, line);
    OrderedIndent(w, line);
    HeadingIndent(w, line);
    QuoteAndRuleIndent(w, line);
  }

  function Repeated(c: char, n: nat): (s: string)
    ensures |s| == n && forall k | 0 <= k < n :: s[k] == c
  {
    seq(n, _ => c)
  }

  predicate IsRuleChar(c: char) { c == '-' || c == '*' || c == '_' }

  function RuleLine(c: char, n: nat, t: string): string { Repeated(c, n) + t }

  /** Dashes, stars or underscores with only whitespace behind them are a rule exactly from three on. */
  lemma RuleExactly(c: char, n: nat, t: string)
    requires IsRuleChar(c) && AllSpace(t)
    ensures ParseFrom([RuleLine(c, n, t)], 0) == Finished([Placed(Rule, 0, 1)]) <==> n >= 3
  {
    var line := RuleLine(c, n, t);
    var lines := [line];
    if n > 0 {
      assert line[0] == c;
      NotBlank(line, 0);
      RuleKindExactly(c, n, t);
      RuleParses(lines);
    } else {
      assert line == t;
      TrimBlank(line);
      ParseBlank(lines, 0);
      ParseEnd(lines);
    }
  }

  lemma RuleParses(lines: seq<string>)
    requires |lines| == 1 && !Blank(lines[0])
    ensures ParseFrom(lines, 0) == Finished([Placed(Rule, 0, 1)]) <==> KindAt(lines, 0) == RuleKind
  {
    var p := Placed(Rule, 0, 1);
    BlockDispatched(lines, 0, KindAt(lines, 0));
    if KindAt(lines, 0) == RuleKind { OneBlock(lines, p); }
    if ParseFrom(lines, 0) == Finished([p]) { FirstOfBlocks(lines, p); }
  }

  /** A run of one character and then whitespace. */
  lemma RunThenSpace(p: char -> bool, c: char, n: nat, t: string)
    requires AllSpace(t) && !IsSpace(c) && n > 0 && forall x | IsSpace(x) :: !p(x)
    ensures RunLength(p, RuleLine(c, n, t)) == if p(c) then n else 0
  {
    var line := RuleLine(c, n, t);
    assert forall k | 0 <= k < n :: line[k] == c;
    assert forall k | n <= k < |line| :: line[k] == t[k - n];
    RunLengthUnique(p, line, if p(c) then n else 0);
  }

  lemma RuleTest(c: char, n: nat, t: string)
    requires IsRuleChar(c) && AllSpace(t) && n > 0
    ensures var line := RuleLine(c, n, t); Lead(line) == 0 && line[0..] == line && (IsRule(line) <==> n >= 3)
  {
    var line := RuleLine(c, n, t);
    assert line[0] == c && line[n..] == t;
    RunLengthUnique(IsSpace, line, 0);
    RunThenSpace(IsDash, c, n, t);
    RunThenSpace(IsStar, c, n, t);
    RunThenSpace(IsUnderscore, c, n, t);
    RunLengthUnique(IsSpace, t, |t|);
  }

  lemma RuleKindExactly(c: char, n: nat, t: string)
    requires IsRuleChar(c) && AllSpace(t) && n > 0
    ensures KindAt([RuleLine(c, n, t)], 0) == RuleKind <==> n >= 3
  {
    var line := RuleLine(c, n, t);
    RuleTest(c, n, t);
    assert line[0] == c;
    RunLengthUnique(IsHash, line, 0);
  }

  /** Letters, digits, and a few signs. */
  predicate IsLanguage(s: string) {
    forall k | 0 <= k < |s| ::
      'a' <= s[k] <= 'z' || 'A' <= s[k] <= 'Z' || '0' <= s[k] <= '9' || s[k] in "_#+.-"
  }

  lemma SolidTrims(s: string)
    requires s == "" || Solid(s)
    ensures Trim(s) == s
  {
    if s == "" { TrimBlank(s); } else { TrimOf("", s, ""); assert "" + s + "" == s; }
  }

  lemma LanguageIsSolid(s: string)
    requires IsLanguage(s)
    ensures (s == "" || Solid(s)) && Solid("```" + s) && ("```" + s)[3..] == s
  {
    var line := "```" + s;
    assert line[|line| - 1] == if s == "" then '`' else s[|s| - 1];
  }

  /** The language of a fence is given as it is, up to thirty characters. */
  lemma LanguageKept(s: string)
    requires IsLanguage(s)
    ensures Language("```" + s) == if |s| <= 30 then s else s[..30]
  {
    LanguageIsSolid(s);
    SolidTrims("```" + s);
    SolidTrims(s);
    LanguageCharsKept(s);
    LanguageOf("```" + s, s);
  }

  lemma LanguageCharsKept(s: string)
    requires IsLanguage(s)
    ensures Filter(IsLanguageChar, s) == s
  {
    FilterKeepsAll(IsLanguageChar, s);
  }

  lemma LanguageOf(line: string, s: string)
    requires |line| >= 3 && Trim(line) == line && line[3..] == s && Trim(s) == s && Filter(IsLanguageChar, s) == s
    ensures Language(line) == if |s| <= 30 then s else s[..30]
  {}

  // ---- which lines interrupt a paragraph ----

  /** Hashes with nothing but whitespace behind them. */
  predicate BareHashes(line: string) {
    var w := Lead(line);
    var h := RunLength(IsHash, line[w..]);
    h > 0 && AllSpace(line[w + h..])
  }

  /** A heading that the block loop opens interrupts a paragraph too, unless it is bare hashes. */
  lemma HeadingInterrupts(line: string)
    requires MatchHeading(line).HeadingMatch? && !BareHashes(line)
    ensures IsHeading(line)
  {
    var w := Lead(line);
    var h := RunLength(IsHash, line[w..]);
    MatchNeedsGap(line, w, h);
    assert RunLength(IsSpace, line[w + h..]) < |line[w + h..]|;
  }

  lemma MatchNeedsGap(line: string, w: nat, h: nat)
    requires w == Lead(line) && h == RunLength(IsHash, line[w..]) && MatchHeading(line).HeadingMatch?
    ensures RunLength(IsSpace, line[w + h..]) >= 1 && w <= 3 && 1 <= h <= 6
  {}

  lemma BareHashesHoldNoBar(line: string)
    ensures BareHashes(line) ==> '|' !in line
  {
    var w := Lead(line);
    var s := line[w..];
    var h := RunLength(IsHash, s);
    var rest := line[w + h..];
    if BareHashes(line) {
      forall k | 0 <= k < |line|
        ensures line[k] != '|'
      {
        if w <= k < w + h { assert line[k] == s[k - w]; }
        if w + h <= k { assert line[k] == rest[k - w - h]; }
      }
    }
  }

  lemma HashOpensLittle(line: string)
    requires Lead(line) < |line| && line[Lead(line)] == '#'
    ensures !IsFence(line) && !IsQuote(line) && !IsBullet(line) && !IsOrdered(line) && !IsRule(line)
  {
    var s := line[Lead(line)..];
    assert s[0] == '#';
    RunLengthUnique(IsDigit, s, 0);
    RunLengthUnique(IsDash, s, 0);
    RunLengthUnique(IsStar, s, 0);
    RunLengthUnique(IsUnderscore, s, 0);
  }

  /**
   A line interrupts a paragraph exactly when it is blank, is a heading, or opens any other block in
   the block loop.
   */
  lemma InterruptsExactly(line: string, next: string)
    ensures StartsBlock(line, next)
            <==> Blank(line) || IsHeading(line)
                 || (KindAt([line, next], 0) != ParagraphKind && KindAt([line, next], 0) != HeadingKind)
  {
    assert StartsTable([line, next], 0) <==> '|' in line && IsTableDivider(next);
    if MatchHeading(line).HeadingMatch? {
      HashOpensLittle(line);
      if '|' in line {
        BareHashesHoldNoBar(line);
        HeadingInterrupts(line);
      }
    }
  }
}
