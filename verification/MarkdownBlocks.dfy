/**
 The block half of the Markdown parser (`isFence` .. `splitTableRow`, `parse` in
 public/dominion-markdown.js): an index loop over lines.
 */
module MarkdownBlocks {
  import opened Sequences
  import opened Text
  import opened MarkdownInline

  // ---- the line patterns ----

  predicate IsHash(c: char) { c == '#' }

  /** Characters that `.` does not match. */
  predicate IsTerminator(c: char) { c == '\n' || c == '\r' || c == '\U{2028}' || c == '\U{2029}' }

  predicate Blank(line: string) { Trim(line) == "" }

  function Lead(line: string): (n: nat)
    ensures n <= |line|
  {
    RunLength(IsSpace, line)
  }

  predicate IsFence(line: string) { "```" <= line[Lead(line)..] }

  /** Where the text after a marker that ends at `a` starts: `\s+` and then some non-space. */
  predicate SpacedText(line: string, a: nat)
    requires a <= |line|
  {
    var sp := RunLength(IsSpace, line[a..]);
    sp >= 1 && a + sp < |line|
  }

  predicate IsHeading(line: string) {
    var w := Lead(line);
    var h := RunLength(IsHash, line[w..]);
    w <= 3 && 1 <= h <= 6 && SpacedText(line, w + h)
  }

  predicate IsQuote(line: string) {
    var w := Lead(line);
    w <= 3 && w < |line| && line[w] == '>'
  }

  /** The end of a bullet marker, or 0: up to three spaces and one of `-+*`. */
  function BulletEnd(line: string): (a: nat)
    ensures a <= |line|
  {
    var w := Lead(line);
    if w <= 3 && w < |line| && (line[w] == '-' || line[w] == '+' || line[w] == '*') then w + 1 else 0
  }

  /** The end of an ordered marker, or 0: up to three spaces, digits, and `.` or `)`. */
  function OrderedEnd(line: string): (a: nat)
    ensures a <= |line|
  {
    var w := Lead(line);
    var n := RunLength(IsDigit, line[w..]);
    if w <= 3 && n > 0 && w + n < |line| && (line[w + n] == '.' || line[w + n] == ')') then w + n + 1 else 0
  }

  predicate IsBullet(line: string) { BulletEnd(line) > 0 && SpacedText(line, BulletEnd(line)) }

  predicate IsOrdered(line: string) { OrderedEnd(line) > 0 && SpacedText(line, OrderedEnd(line)) }

  predicate IsDash(c: char) { c == '-' }

  predicate IsStar(c: char) { c == '*' }

  predicate IsUnderscore(c: char) { c == '_' }

  /** Three or more of one kind, then only whitespace. */
  predicate RuleOf(s: string, p: char -> bool) {
    var n := RunLength(p, s);
    n >= 3 && RunLength(IsSpace, s[n..]) == |s| - n
  }

  predicate IsRule(line: string) {
    var w := Lead(line);
    w <= 3 && (RuleOf(line[w..], IsDash) || RuleOf(line[w..], IsStar) || RuleOf(line[w..], IsUnderscore))
  }

  function TrimAll(cells: seq<string>): (r: seq<string>)
    ensures |r| == |cells| && forall k | 0 <= k < |r| :: r[k] == Trim(cells[k])
  {
    seq(|cells|, k requires 0 <= k < |cells| => Trim(cells[k]))
  }

  /** The row between its optional outer bars. */
  function RowBody(line: string): string {
    var v := Trim(line);
    var v := if "|" <= v then v[1..] else v;
    if v != "" && v[|v| - 1] == '|' then v[..|v| - 1] else v
  }

  function SplitTableRow(line: string): (r: seq<string>)
    ensures r != []
  {
    TrimAll(Split(RowBody(line), '|'))
  }

  /** `^:?-{3,}:?$`. */
  predicate IsDividerCell(cell: string) {
    var c := if cell != "" && cell[0] == ':' then cell[1..] else cell;
    var n := RunLength(IsDash, c);
    n >= 3 && (n == |c| || (n + 1 == |c| && c[n] == ':'))
  }

  predicate IsTableDivider(line: string) {
    var cells := SplitTableRow(line);
    |cells| > 1 && forall k | 0 <= k < |cells| :: IsDividerCell(Trim(cells[k]))
  }

  predicate StartsBlock(line: string, next: string) {
    || Blank(line) || IsFence(line) || IsHeading(line) || IsQuote(line) || IsBullet(line)
    || IsOrdered(line) || IsRule(line) || ('|' in line && IsTableDivider(next))
  }

  // ---- headings and list items ----

  /** `\s*#*\s*$`. */
  predicate HeadingTail(s: string) {
    var a := RunLength(IsSpace, s);
    var b := a + RunLength(IsHash, s[a..]);
    b + RunLength(IsSpace, s[b..]) == |s|
  }

  /** The least end from `q` on of a capture without terminators that leaves only a tail; 0 if none. */
  function LazyEnd(line: string, q: nat, tail: string -> bool): (r: nat)
    requires 0 < q
    ensures r > 0 ==> q <= r <= |line|
    decreases |line| - q
  {
    if q > |line| || IsTerminator(line[q - 1]) then 0
    else if tail(line[q..]) then q
    else LazyEnd(line, q + 1, tail)
  }

  function HeadingEnd(line: string, p: nat): (r: nat)
    ensures r > 0 ==> p < r <= |line|
  {
    LazyEnd(line, p + 1, HeadingTail)
  }

  lemma {:induction false} LazyEndIs(line: string, q: nat, tail: string -> bool, r: nat)
    requires 0 < q <= r <= |line| && forall k | q - 1 <= k < r :: !IsTerminator(line[k])
    requires tail(line[r..]) && forall j | q <= j < r :: !tail(line[j..])
    ensures LazyEnd(line, q, tail) == r
    decreases r - q
  {
    if q < r { LazyEndIs(line, q + 1, tail, r); }
  }

  lemma {:induction false} LazyEndAtMost(line: string, q: nat, tail: string -> bool, m: nat)
    requires 0 < q <= m <= |line| && tail(line[m..])
    ensures LazyEnd(line, q, tail) <= m
    decreases m - q
  {
    if q < m { LazyEndAtMost(line, q + 1, tail, m); }
  }

  datatype Capture = NoCapture | Capture(from: nat, to: nat)

  /** Backtracking of the greedy `\s+`: the latest start from `p` down to `lo` that has an end. */
  function HeadingStart(line: string, lo: nat, p: nat): (c: Capture)
    ensures c.Capture? ==> lo <= c.from < c.to <= |line|
    decreases p
  {
    if p < lo then NoCapture
    else if HeadingEnd(line, p) > 0 then Capture(p, HeadingEnd(line, p))
    else if p == 0 then NoCapture
    else HeadingStart(line, lo, p - 1)
  }

  lemma OneStart(line: string, p: nat)
    requires p > 0
    ensures HeadingStart(line, p, p) == if HeadingEnd(line, p) > 0 then Capture(p, HeadingEnd(line, p)) else NoCapture
  {}

  datatype HeadingMatch = NoHeading | HeadingMatch(level: nat, from: nat, to: nat)

  /** Behind an indent of `w`, `h` hashes and a gap of `sp`: the number of hashes and the captured stretch. */
  function HeadingBehind(line: string, w: nat, h: nat, sp: nat): (m: HeadingMatch)
    ensures m.HeadingMatch? ==> 1 <= m.level <= 6 && m.from < m.to <= |line| && h > 0
  {
    if w <= 3 && 1 <= h <= 6 then
      var c := HeadingStart(line, w + h + 1, w + h + sp);
      if c.Capture? then HeadingMatch(h, c.from, c.to) else NoHeading
    else NoHeading
  }

  /** `^\s{0,3}(#{1,6})\s+(.+?)\s*#*\s*$`. */
  function MatchHeading(line: string): (m: HeadingMatch)
    ensures m.HeadingMatch? ==> 1 <= m.level <= 6 && m.from < m.to <= |line|
    ensures m.HeadingMatch? ==> Lead(line) < |line| && line[Lead(line)] == '#'
  {
    var w := Lead(line);
    var h := RunLength(IsHash, line[w..]);
    assert h > 0 ==> line[w..][0] == line[w];
    HeadingBehind(line, w, h, RunLength(IsSpace, line[w + h..]))
  }

  predicate NoTerminators(s: string) {
    forall k | 0 <= k < |s| :: !IsTerminator(s[k])
  }

  /** `\s+(.+)$` after a marker that ends at `a`: where the item text starts. */
  function ItemStart(line: string, a: nat): (r: Option<nat>)
    requires 0 < a <= |line|
    ensures r.Some? ==> a < r.value < |line|
  {
    var end := a + RunLength(IsSpace, line[a..]);
    var p := if end < |line| then end else |line| - 1;
    if a < p && NoTerminators(line[p..]) then Some(p) else None
  }

  function MarkerEnd(line: string, ordered: bool): (a: nat)
    ensures a <= |line|
  {
    if ordered then OrderedEnd(line) else BulletEnd(line)
  }

  /** The item pattern of a list of this kind. */
  function ItemText(line: string, ordered: bool): Option<string> {
    var a := MarkerEnd(line, ordered);
    if a == 0 then None
    else
      var p := ItemStart(line, a);
      if p.Some? then Some(line[p.value..]) else None
  }

  predicate StartsList(line: string) { IsBullet(line) || IsOrdered(line) }

  /** A line that opens a list whose own pattern rejects it. */
  predicate Stalling(line: string) {
    StartsList(line) && ItemText(line, IsOrdered(line)).None?
  }

  function StripQuote(line: string): string
    requires IsQuote(line)
  {
    var w := Lead(line) + 1;
    if w < |line| && IsSpace(line[w]) then line[w + 1..] else line[w..]
  }

  // ---- blocks ----

  datatype Align = LeftAlign | CenterAlign | RightAlign

  datatype Block =
    | CodeBlock(language: string, value: string)
    | Heading(level: nat, children: seq<Token>)
    | Rule
    | Table(headers: seq<seq<Token>>, alignment: seq<Align>, rows: seq<seq<seq<Token>>>)
    | List(ordered: bool, items: seq<seq<Token>>)
    | Quote(children: seq<Token>)
    | Paragraph(children: seq<Token>)

  predicate IsLanguageChar(c: char) {
    || 'a' <= c <= 'z' || 'A' <= c <= 'Z' || IsDigit(c) || c == '_' || c == '#' || c == '+' || c == '.' || c == '-'
  }

  function Language(line: string): string {
    var name := Trim(line);
    var kept := Filter(IsLanguageChar, Trim(if |name| < 3 then "" else name[3..]));
    if |kept| < 30 then kept else kept[..30]
  }

  function AlignOf(cell: string): Align {
    var v := Trim(cell);
    var right := v != "" && v[|v| - 1] == ':';
    if v != "" && v[0] == ':' && right then CenterAlign else if right then RightAlign else LeftAlign
  }

  function InlineAll(texts: seq<string>): (r: seq<seq<Token>>)
    ensures |r| == |texts| && forall k | 0 <= k < |r| :: r[k] == Inline(texts[k])
  {
    seq(|texts|, k requires 0 <= k < |texts| => Inline(texts[k]))
  }

  function AlignAll(cells: seq<string>): (r: seq<Align>)
    ensures |r| == |cells|
  {
    seq(|cells|, k requires 0 <= k < |cells| => AlignOf(cells[k]))
  }

  function RowsOf(lines: seq<string>): (r: seq<seq<seq<Token>>>)
    ensures |r| == |lines| && forall k | 0 <= k < |r| :: r[k] == InlineAll(SplitTableRow(lines[k]))
  {
    seq(|lines|, k requires 0 <= k < |lines| => InlineAll(SplitTableRow(lines[k])))
  }

  // where each kind of block ends

  function LineAt(lines: seq<string>, i: nat): string { if i < |lines| then lines[i] else "" }

  /** A test of a line and the line after it. */
  type LineTest = (string, string) -> bool

  /** The first line from `i` on that fails the test. */
  function RunEnd(lines: seq<string>, i: nat, p: LineTest): (r: nat)
    requires i <= |lines|
    ensures i <= r <= |lines| && (r < |lines| ==> !p(lines[r], LineAt(lines, r + 1)))
    ensures forall k | i <= k < r :: p(lines[k], LineAt(lines, k + 1))
    decreases |lines| - i
  {
    if i == |lines| || !p(lines[i], LineAt(lines, i + 1)) then i else RunEnd(lines, i + 1, p)
  }

  predicate InFence(line: string, next: string) { !IsFence(line) }

  predicate InTable(line: string, next: string) { !Blank(line) && '|' in line }

  predicate InBullets(line: string, next: string) { ItemText(line, false).Some? }

  predicate InOrdered(line: string, next: string) { ItemText(line, true).Some? }

  predicate InQuote(line: string, next: string) { IsQuote(line) }

  predicate InParagraph(line: string, next: string) { !StartsBlock(line, next) }

  function InList(ordered: bool): LineTest { if ordered then InOrdered else InBullets }

  function Items(lines: seq<string>, ordered: bool): (r: seq<string>)
    requires forall k | 0 <= k < |lines| :: ItemText(lines[k], ordered).Some?
    ensures |r| == |lines| && forall k | 0 <= k < |r| :: r[k] == ItemText(lines[k], ordered).value
  {
    seq(|lines|, k requires 0 <= k < |lines| => ItemText(lines[k], ordered).value)
  }

  function Quoted(lines: seq<string>): (r: seq<string>)
    requires forall k | 0 <= k < |lines| :: IsQuote(lines[k])
    ensures |r| == |lines| && forall k | 0 <= k < |r| :: r[k] == StripQuote(lines[k])
  {
    seq(|lines|, k requires 0 <= k < |lines| => StripQuote(lines[k]))
  }

  predicate StartsTable(lines: seq<string>, i: nat)
    requires i < |lines|
  {
    '|' in lines[i] && i + 1 < |lines| && IsTableDivider(lines[i + 1])
  }

  /** A block together with the lines it was made from. */
  datatype Placed = Placed(block: Block, from: nat, to: nat)

  datatype Kind = FenceKind | HeadingKind | RuleKind | TableKind | ListKind | QuoteKind | ParagraphKind

  /** Which branch of the block loop a non-blank line takes: the first that applies. */
  function KindAt(lines: seq<string>, i: nat): Kind
    requires i < |lines|
  {
    var line := lines[i];
    if IsFence(line) then FenceKind
    else if MatchHeading(line).HeadingMatch? then HeadingKind
    else if IsRule(line) then RuleKind
    else if StartsTable(lines, i) then TableKind
    else if StartsList(line) then ListKind
    else if IsQuote(line) then QuoteKind
    else ParagraphKind
  }

  /** What a branch of the block loop needs to know about its line. */
  predicate Fits(kind: Kind, lines: seq<string>, i: nat) {
    && i < |lines|
    && (kind.HeadingKind? ==> MatchHeading(lines[i]).HeadingMatch?)
    && (kind.TableKind? ==> i + 2 <= |lines|)
  }

  lemma KindFits(lines: seq<string>, i: nat)
    requires i < |lines|
    ensures Fits(KindAt(lines, i), lines, i)
  {}

  /** The block that a branch of the loop builds from line `i` on. */
  function BlockOf(kind: Kind, lines: seq<string>, i: nat): (p: Placed)
    requires Fits(kind, lines, i)
    ensures p.from == i && i <= p.to <= |lines|
  {
    match kind
    case FenceKind => FenceBlock(lines, i, RunEnd(lines, i + 1, InFence))
    case HeadingKind => HeadingBlock(lines, i)
    case RuleKind => Placed(Rule, i, i + 1)
    case TableKind => TableFrom(lines, i)
    case ListKind => ListFrom(lines, i)
    case QuoteKind => QuoteFrom(lines, i)
    case ParagraphKind => ParagraphFrom(lines, i)
  }

  /** The block that the parser builds from line `i` on; it advances unless the line stalls. */
  function BlockAt(lines: seq<string>, i: nat): (p: Placed)
    requires i < |lines|
    ensures p.from == i && i <= p.to <= |lines|
  {
    KindFits(lines, i);
    BlockOf(KindAt(lines, i), lines, i)
  }

  lemma BlockDispatched(lines: seq<string>, i: nat, kind: Kind)
    requires i < |lines| && kind == KindAt(lines, i)
    ensures Fits(kind, lines, i) && BlockAt(lines, i) == BlockOf(kind, lines, i)
  {
    KindFits(lines, i);
  }

  function FenceBlock(lines: seq<string>, i: nat, end: nat): Placed
    requires i < end <= |lines|
  {
    Placed(CodeBlock(Language(lines[i]), Join(lines[i + 1..end], '\n')), i, if end < |lines| then end + 1 else end)
  }

  function HeadingBlock(lines: seq<string>, i: nat): Placed
    requires i < |lines| && MatchHeading(lines[i]).HeadingMatch?
  {
    var m := MatchHeading(lines[i]);
    Placed(Heading(m.level, Inline(lines[i][m.from..m.to])), i, i + 1)
  }

  function TableBlock(lines: seq<string>, i: nat, end: nat): Placed
    requires i + 2 <= end <= |lines|
  {
    Placed(Table(InlineAll(SplitTableRow(lines[i])), AlignAll(SplitTableRow(lines[i + 1])), RowsOf(lines[i + 2..end])),
           i, end)
  }

  function ListBlock(lines: seq<string>, i: nat, ordered: bool, end: nat): Placed
    requires i <= end <= |lines| && forall k | i <= k < end :: ItemText(lines[k], ordered).Some?
  {
    Placed(List(ordered, InlineAll(Items(lines[i..end], ordered))), i, end)
  }

  function QuoteBlock(lines: seq<string>, i: nat, end: nat): Placed
    requires i <= end <= |lines| && forall k | i <= k < end :: IsQuote(lines[k])
  {
    Placed(Quote(Inline(Join(Quoted(lines[i..end]), '\n'))), i, end)
  }

  function TableFrom(lines: seq<string>, i: nat): (p: Placed)
    requires i + 2 <= |lines|
    ensures p.from == i && p.to == RunEnd(lines, i + 2, InTable)
  {
    TableBlock(lines, i, RunEnd(lines, i + 2, InTable))
  }

  function ParagraphFrom(lines: seq<string>, i: nat): (p: Placed)
    requires i < |lines|
    ensures p.from == i && p.to == RunEnd(lines, i + 1, InParagraph)
  {
    ParagraphBlock(lines, i, RunEnd(lines, i + 1, InParagraph))
  }

  function ListFrom(lines: seq<string>, i: nat): (p: Placed)
    requires i < |lines|
    ensures p.from == i && p.to == RunEnd(lines, i, InList(IsOrdered(lines[i])))
  {
    ItemsRun(lines, i, IsOrdered(lines[i]));
    ListBlock(lines, i, IsOrdered(lines[i]), RunEnd(lines, i, InList(IsOrdered(lines[i]))))
  }

  function QuoteFrom(lines: seq<string>, i: nat): (p: Placed)
    requires i <= |lines|
    ensures p.from == i && p.to == RunEnd(lines, i, InQuote)
  {
    QuoteBlock(lines, i, RunEnd(lines, i, InQuote))
  }

  function ParagraphBlock(lines: seq<string>, i: nat, end: nat): Placed
    requires i < end <= |lines|
  {
    Placed(Paragraph(Inline(Join(lines[i..end], '\n'))), i, end)
  }

  // ---- where the block at `i` ends ----

  lemma ItemsRun(lines: seq<string>, i: nat, ordered: bool)
    requires i <= |lines|
    ensures forall k | i <= k < RunEnd(lines, i, InList(ordered)) :: ItemText(lines[k], ordered).Some?
  {
    forall k | i <= k < RunEnd(lines, i, InList(ordered))
      ensures ItemText(lines[k], ordered).Some?
    {
      assert InList(ordered)(lines[k], LineAt(lines, k + 1));
    }
  }

  lemma QuoteRun(lines: seq<string>, i: nat)
    requires i <= |lines|
    ensures forall k | i <= k < RunEnd(lines, i, InQuote) :: IsQuote(lines[k])
  {
    forall k | i <= k < RunEnd(lines, i, InQuote)
      ensures IsQuote(lines[k])
    {
      assert InQuote(lines[k], LineAt(lines, k + 1));
    }
  }

  lemma TableFits(lines: seq<string>, i: nat)
    requires i < |lines| && KindAt(lines, i) == TableKind
    ensures i + 2 <= |lines|
  {}

  lemma ListAt(lines: seq<string>, i: nat) returns (ordered: bool, end: nat)
    requires i < |lines| && KindAt(lines, i) == ListKind
    ensures ordered == IsOrdered(lines[i]) && end == RunEnd(lines, i, InList(ordered))
    ensures forall k | i <= k < end :: ItemText(lines[k], ordered).Some?
    ensures BlockAt(lines, i) == ListBlock(lines, i, ordered, end)
  {
    ordered := IsOrdered(lines[i]);
    end := RunEnd(lines, i, InList(ordered));
    ItemsRun(lines, i, ordered);
    BlockDispatched(lines, i, ListKind);
  }

  lemma QuoteAt(lines: seq<string>, i: nat) returns (end: nat)
    requires i < |lines| && KindAt(lines, i) == QuoteKind
    ensures end == RunEnd(lines, i, InQuote) && forall k | i <= k < end :: IsQuote(lines[k])
    ensures BlockAt(lines, i) == QuoteBlock(lines, i, end)
  {
    end := RunEnd(lines, i, InQuote);
    QuoteRun(lines, i);
    BlockDispatched(lines, i, QuoteKind);
    QuoteMade(lines, i);
  }

  lemma QuoteMade(lines: seq<string>, i: nat)
    requires i <= |lines| && forall k | i <= k < RunEnd(lines, i, InQuote) :: IsQuote(lines[k])
    ensures QuoteFrom(lines, i) == QuoteBlock(lines, i, RunEnd(lines, i, InQuote))
  {}

  lemma TableAt(lines: seq<string>, i: nat) returns (end: nat)
    requires i < |lines| && KindAt(lines, i) == TableKind
    ensures i + 2 <= |lines| && end == RunEnd(lines, i + 2, InTable)
    ensures BlockAt(lines, i) == TableBlock(lines, i, end)
  {
    TableFits(lines, i);
    end := RunEnd(lines, i + 2, InTable);
    BlockDispatched(lines, i, TableKind);
  }

  lemma ParagraphAt(lines: seq<string>, i: nat) returns (end: nat)
    requires i < |lines| && KindAt(lines, i) == ParagraphKind
    ensures end == RunEnd(lines, i + 1, InParagraph)
    ensures BlockAt(lines, i) == ParagraphBlock(lines, i, end)
  {
    end := RunEnd(lines, i + 1, InParagraph);
    BlockDispatched(lines, i, ParagraphKind);
  }

  lemma FenceAt(lines: seq<string>, i: nat) returns (end: nat)
    requires i < |lines| && KindAt(lines, i) == FenceKind
    ensures end == RunEnd(lines, i + 1, InFence)
    ensures BlockAt(lines, i) == FenceBlock(lines, i, end)
  {
    end := RunEnd(lines, i + 1, InFence);
    BlockDispatched(lines, i, FenceKind);
  }

  /** The blocks of a document, or the line at which the source's loop stops advancing for good. */
  datatype Outcome = Finished(blocks: seq<Placed>) | Stuck(at: nat)

  function ParseFrom(lines: seq<string>, i: nat): Outcome
    requires i <= |lines|
    decreases |lines| - i
  {
    if i == |lines| then Finished([])
    else if Blank(lines[i]) then ParseFrom(lines, i + 1)
    else
      var p := BlockAt(lines, i);
      if p.to == i then Stuck(i)
      else
        var rest := ParseFrom(lines, p.to);
        if rest.Stuck? then rest else Finished([p] + rest.blocks)
  }

  /** `replace(/\r\n?/g, "\n")`. */
  function NormalizeNewlines(s: string): string {
    if s == "" then ""
    else if s[0] == '\r' then "\n" + NormalizeNewlines(if |s| > 1 && s[1] == '\n' then s[2..] else s[1..])
    else [s[0]] + NormalizeNewlines(s[1..])
  }

  function Lines(text: string): seq<string> {
    Split(NormalizeNewlines(text), '\n')
  }

  // ---- the loops ----

  method ParseAll(texts: seq<string>) returns (r: seq<seq<Token>>)
    ensures r == InlineAll(texts)
  {
    r := [];
    for k := 0 to |texts|
      invariant |r| == k && forall j | 0 <= j < k :: r[j] == Inline(texts[j])
    {
      var tokens := ParseInline(texts[k]);
      r := r + [tokens];
    }
  }

  /** The inner loops: collect lines while they pass the test. */
  method CollectWhile(lines: seq<string>, i: nat, p: LineTest) returns (taken: seq<string>, j: nat)
    requires i <= |lines|
    ensures j == RunEnd(lines, i, p) && taken == lines[i..j]
  {
    taken, j := [], i;
    while j < |lines| && p(lines[j], LineAt(lines, j + 1))
      invariant i <= j <= |lines| && taken == lines[i..j] && RunEnd(lines, i, p) == RunEnd(lines, j, p)
    {
      taken := taken + [lines[j]];
      j := j + 1;
    }
  }

  method ParseRows(lines: seq<string>) returns (rows: seq<seq<seq<Token>>>)
    ensures rows == RowsOf(lines)
  {
    rows := [];
    for k := 0 to |lines|
      invariant rows == RowsOf(lines[..k])
    {
      var row := ParseAll(SplitTableRow(lines[k]));
      rows := rows + [row];
      RowsSnoc(lines, k);
    }
    assert lines[..|lines|] == lines;
  }

  lemma RowsSnoc(lines: seq<string>, k: nat)
    requires k < |lines|
    ensures RowsOf(lines[..k + 1]) == RowsOf(lines[..k]) + [InlineAll(SplitTableRow(lines[k]))]
  {
    assert lines[..k + 1] == lines[..k] + [lines[k]];
  }

  method ParseFence(lines: seq<string>, i: nat) returns (p: Placed)
    requires i < |lines|
    ensures p == FenceBlock(lines, i, RunEnd(lines, i + 1, InFence))
  {
    var body, j := CollectWhile(lines, i + 1, InFence);
    p := Placed(CodeBlock(Language(lines[i]), Join(body, '\n')), i, if j < |lines| then j + 1 else j);
  }

  method ParseHeading(lines: seq<string>, i: nat) returns (p: Placed)
    requires i < |lines| && MatchHeading(lines[i]).HeadingMatch?
    ensures p == HeadingBlock(lines, i)
  {
    var m := MatchHeading(lines[i]);
    var children := ParseInline(lines[i][m.from..m.to]);
    p := Placed(Heading(m.level, children), i, i + 1);
  }

  method ParseTable(lines: seq<string>, i: nat) returns (p: Placed)
    requires i + 2 <= |lines|
    ensures p == TableBlock(lines, i, RunEnd(lines, i + 2, InTable))
  {
    var headers := ParseAll(SplitTableRow(lines[i]));
    var taken, j := CollectWhile(lines, i + 2, InTable);
    var rows := ParseRows(taken);
    p := Placed(Table(headers, AlignAll(SplitTableRow(lines[i + 1])), rows), i, j);
  }

  method ParseList(lines: seq<string>, i: nat, ordered: bool) returns (p: Placed)
    requires i < |lines|
    ensures p == ListBlock(lines, i, ordered, RunEnd(lines, i, InList(ordered)))
  {
    var taken, j := CollectWhile(lines, i, InList(ordered));
    ItemsRun(lines, i, ordered);
    assert forall k | 0 <= k < |taken| :: taken[k] == lines[i + k];
    var items := ParseAll(Items(taken, ordered));
    p := Placed(List(ordered, items), i, j);
  }

  method ParseQuote(lines: seq<string>, i: nat) returns (p: Placed)
    requires i < |lines|
    ensures p == QuoteBlock(lines, i, RunEnd(lines, i, InQuote))
  {
    var taken, j := CollectWhile(lines, i, InQuote);
    var children := ParseInline(Join(Quoted(taken), '\n'));
    p := Placed(Quote(children), i, j);
  }

  method ParseParagraph(lines: seq<string>, i: nat) returns (p: Placed)
    requires i < |lines|
    ensures p == ParagraphBlock(lines, i, RunEnd(lines, i + 1, InParagraph))
  {
    var taken, j := CollectWhile(lines, i + 1, InParagraph);
    FirstAndRest(lines, i, j);
    var children := ParseInline(Join([lines[i]] + taken, '\n'));
    p := Placed(Paragraph(children), i, j);
  }

  lemma FirstAndRest(lines: seq<string>, i: nat, j: nat)
    requires i < j <= |lines|
    ensures [lines[i]] + lines[i + 1..j] == lines[i..j]
  {}

  /** One block: its opening line decides the branch, its loop how far it reaches. */
  method ParseBlock(lines: seq<string>, i: nat) returns (p: Placed)
    requires i < |lines|
    ensures p == BlockAt(lines, i)
  {
    var kind := KindAt(lines, i);
    BlockDispatched(lines, i, kind);
    p := ParseKind(kind, lines, i);
  }

  /** One branch of the loop. */
  method ParseKind(kind: Kind, lines: seq<string>, i: nat) returns (p: Placed)
    requires Fits(kind, lines, i)
    ensures p == BlockOf(kind, lines, i)
  {
    match kind {
      case FenceKind =>
        p := ParseFence(lines, i);
      case HeadingKind =>
        p := ParseHeading(lines, i);
      case RuleKind =>
        p := Placed(Rule, i, i + 1);
      case TableKind =>
        p := ParseTable(lines, i);
      case ListKind =>
        p := ParseList(lines, i, IsOrdered(lines[i]));
      case QuoteKind =>
        p := ParseQuote(lines, i);
      case ParagraphKind =>
        p := ParseParagraph(lines, i);
    }
  }

  /** The block loop; where the source would spin forever, the model reports the line. */
  method Parse(text: string) returns (r: Outcome)
    ensures r == ParseFrom(Lines(text), 0)
  {
    var lines := Split(NormalizeNewlines(text), '\n');
    var blocks: seq<Placed> := [];
    var i := 0;
    ghost var goal := ParseFrom(lines, 0);
    EmptyPrefix(goal);
    while i < |lines|
      invariant i <= |lines| && goal == Continue(blocks, ParseFrom(lines, i))
    {
      OneIteration(lines, i, blocks);
      if Blank(lines[i]) {
        i := i + 1;
      } else {
        var p := ParseBlock(lines, i);
        if p.to == i {
          return Stuck(i);
        }
        blocks := blocks + [p];
        i := p.to;
      }
    }
    assert blocks + [] == blocks;
    return Finished(blocks);
  }

  lemma EmptyPrefix(rest: Outcome)
    ensures Continue([], rest) == rest
  {
    if rest.Finished? {
      assert [] + rest.blocks == rest.blocks;
    }
  }

  /** What one turn of the block loop does to the rest of the parse. */
  lemma OneIteration(lines: seq<string>, i: nat, blocks: seq<Placed>)
    requires i < |lines|
    ensures Blank(lines[i]) ==> ParseFrom(lines, i) == ParseFrom(lines, i + 1)
    ensures !Blank(lines[i]) && BlockAt(lines, i).to == i ==> ParseFrom(lines, i) == Stuck(i)
    ensures !Blank(lines[i]) && BlockAt(lines, i).to > i ==>
              Continue(blocks, ParseFrom(lines, i))
              == Continue(blocks + [BlockAt(lines, i)], ParseFrom(lines, BlockAt(lines, i).to))
  {
    if !Blank(lines[i]) && BlockAt(lines, i).to > i {
      ContinueOne(blocks, BlockAt(lines, i), ParseFrom(lines, BlockAt(lines, i).to));
    }
  }

  function Continue(blocks: seq<Placed>, rest: Outcome): Outcome {
    if rest.Stuck? then rest else Finished(blocks + rest.blocks)
  }

  lemma ContinueOne(blocks: seq<Placed>, p: Placed, rest: Outcome)
    ensures Continue(blocks, Continue([p], rest)) == Continue(blocks + [p], rest)
  {
    if rest.Finished? {
      assert blocks + ([p] + rest.blocks) == blocks + [p] + rest.blocks;
    }
  }
}
