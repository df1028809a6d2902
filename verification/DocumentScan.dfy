/**
 Where the block parser stops for good, decided by one pass over the lines (`parse` in
 public/dominion-markdown.js). The scan has no nested loops and builds no blocks: it only
 remembers what kind of block the line before belonged to.
 */
module DocumentScan {
  import opened Sequences
  import opened Text
  import opened MarkdownBlocks
  import opened DocumentLaws

  /** What the line before leaves open; `Open` stands for everything any block may interrupt. */
  datatype Mode = Open | Fenced | Divider | Rows | Items(ordered: bool) | Quoting

  predicate OpensTable(line: string, next: string) { '|' in line && IsTableDivider(next) }

  /** The mode after a line at which a block may start. */
  function Enter(line: string, next: string): Mode {
    if Blank(line) then Open
    else if IsFence(line) then Fenced
    else if MatchHeading(line).HeadingMatch? || IsRule(line) then Open
    else if OpensTable(line, next) then Divider
    else if StartsList(line) then Items(IsOrdered(line))
    else if IsQuote(line) then Quoting
    else Open
  }

  /** The line belongs to the block that is open. */
  predicate Continues(mode: Mode, line: string) {
    match mode
    case Open => false
    case Fenced => !IsFence(line)
    case Divider => true
    case Rows => !Blank(line) && '|' in line
    case Items(ordered) => ItemText(line, ordered).Some?
    case Quoting => IsQuote(line)
  }

  function Next(mode: Mode, line: string, next: string): Mode {
    if mode.Divider? then Rows
    else if Continues(mode, line) then mode
    else if mode.Fenced? then Open
    else Enter(line, next)
  }

  /** A list starts here whose own pattern rejects the line. */
  predicate Hangs(mode: Mode, line: string, next: string) {
    !mode.Fenced? && !Continues(mode, line) && Enter(line, next).Items? && Stalling(line)
  }

  /** One line of the scan: the next mode, or none when it hangs. */
  function StepOn(mode: Mode, line: string, next: string): Option<Mode> {
    if Hangs(mode, line, next) then None else Some(Next(mode, line, next))
  }

  type LineStep = (Mode, string, string) -> Option<Mode>

  /** The first line at which a step hangs. */
  function Run(step: LineStep, lines: seq<string>, i: nat, mode: Mode): Option<nat>
    requires i <= |lines|
    decreases |lines| - i
  {
    if i == |lines| then None
    else
      match step(mode, lines[i], LineAt(lines, i + 1))
      case None => Some(i)
      case Some(after) => Run(step, lines, i + 1, after)
  }

  function Scan(lines: seq<string>, i: nat, mode: Mode): Option<nat>
    requires i <= |lines|
  {
    Run(StepOn, lines, i, mode)
  }

  // ---- runs of lines, for any step ----

  /** Every line from `i` to `end` keeps the mode. */
  predicate Keeps(step: LineStep, lines: seq<string>, i: nat, end: nat, mode: Mode) {
    end <= |lines| && forall k | i <= k < end :: step(mode, lines[k], LineAt(lines, k + 1)) == Some(mode)
  }

  /** At `end` the mode makes no difference. */
  predicate Drops(step: LineStep, lines: seq<string>, end: nat, mode: Mode) {
    end < |lines| ==>
      step(mode, lines[end], LineAt(lines, end + 1)) == step(Open, lines[end], LineAt(lines, end + 1))
  }

  lemma {:induction false} RunKeeps(step: LineStep, lines: seq<string>, i: nat, end: nat, mode: Mode)
    requires i <= end && Keeps(step, lines, i, end, mode)
    ensures Run(step, lines, i, mode) == Run(step, lines, end, mode)
    decreases end - i
  {
    if i < end { RunKeeps(step, lines, i + 1, end, mode); }
  }

  /** Line `i` enters a mode that the lines up to `end` keep and that the line there drops. */
  predicate BlockRun(step: LineStep, lines: seq<string>, i: nat, end: nat, mode: Mode) {
    && i < end <= |lines| && step(Open, lines[i], LineAt(lines, i + 1)) == Some(mode)
    && Keeps(step, lines, i + 1, end, mode) && Drops(step, lines, end, mode)
  }

  lemma BlockPassed(step: LineStep, lines: seq<string>, i: nat, end: nat, mode: Mode)
    requires BlockRun(step, lines, i, end, mode)
    ensures Run(step, lines, i, Open) == Run(step, lines, end, Open)
  {
    RunKeeps(step, lines, i + 1, end, mode);
  }

  // ---- the scan agrees with the parser ----

  lemma EmptyIsNoDivider()
    ensures !IsTableDivider("")
  {
    assert RowBody("") == "";
    assert |Split("", '|')| == 1;
  }

  /** The mode entered at a line mirrors the branch of the block loop. */
  lemma EnterMirrors(lines: seq<string>, i: nat)
    requires i < |lines| && !Blank(lines[i])
    ensures Enter(lines[i], LineAt(lines, i + 1)) ==
            match KindAt(lines, i)
            case FenceKind => Fenced
            case TableKind => Divider
            case ListKind => Items(IsOrdered(lines[i]))
            case QuoteKind => Quoting
            case _ => Open
  {
    EmptyIsNoDivider();
    assert StartsTable(lines, i) == OpensTable(lines[i], LineAt(lines, i + 1));
  }

  lemma RunPasses(lines: seq<string>, i: nat, p: LineTest)
    requires i <= |lines|
    ensures forall k | i <= k < RunEnd(lines, i, p) :: p(lines[k], LineAt(lines, k + 1))
    ensures RunEnd(lines, i, p) < |lines| ==>
              !p(lines[RunEnd(lines, i, p)], LineAt(lines, RunEnd(lines, i, p) + 1))
  {}

  lemma EntersMode(lines: seq<string>, i: nat, mode: Mode)
    requires i < |lines| && mode == Enter(lines[i], LineAt(lines, i + 1)) && !(mode.Items? && Stalling(lines[i]))
    ensures StepOn(Open, lines[i], LineAt(lines, i + 1)) == Some(mode)
  {}

  lemma StaysInMode(mode: Mode, line: string, next: string)
    requires !mode.Divider? && Continues(mode, line)
    ensures StepOn(mode, line, next) == Some(mode)
  {}

  lemma LeavesMode(mode: Mode, line: string, next: string)
    requires !mode.Fenced? && !mode.Divider? && !Continues(mode, line)
    ensures StepOn(mode, line, next) == StepOn(Open, line, next)
  {}

  /** Lines that pass `p` keep the mode, and the first that fails it drops the mode. */
  lemma RunSteps(lines: seq<string>, i: nat, p: LineTest, mode: Mode)
    requires i <= |lines| && !mode.Fenced? && !mode.Divider?
    requires forall line, next :: p(line, next) <==> Continues(mode, line)
    ensures var end := RunEnd(lines, i, p); Keeps(StepOn, lines, i, end, mode) && Drops(StepOn, lines, end, mode)
  {
    var end := RunEnd(lines, i, p);
    RunPasses(lines, i, p);
    forall k | i <= k < end
      ensures StepOn(mode, lines[k], LineAt(lines, k + 1)) == Some(mode)
    {
      assert p(lines[k], LineAt(lines, k + 1));
      StaysInMode(mode, lines[k], LineAt(lines, k + 1));
    }
    if end < |lines| {
      assert !p(lines[end], LineAt(lines, end + 1));
      LeavesMode(mode, lines[end], LineAt(lines, end + 1));
    }
  }

  lemma FencedSteps(lines: seq<string>, i: nat)
    requires i <= |lines|
    ensures var end := RunEnd(lines, i, InFence);
            && Keeps(StepOn, lines, i, end, Fenced)
            && (end < |lines| ==> StepOn(Fenced, lines[end], LineAt(lines, end + 1)) == Some(Open))
  {
    var end := RunEnd(lines, i, InFence);
    RunPasses(lines, i, InFence);
    forall k | i <= k < end
      ensures StepOn(Fenced, lines[k], LineAt(lines, k + 1)) == Some(Fenced)
    {
      assert InFence(lines[k], LineAt(lines, k + 1));
      StaysInMode(Fenced, lines[k], LineAt(lines, k + 1));
    }
    if end < |lines| {
      assert !InFence(lines[end], LineAt(lines, end + 1));
    }
  }

  /** Line `i` opens a fence whose body ends at `end`. */
  predicate FenceRun(step: LineStep, lines: seq<string>, i: nat, end: nat) {
    && i < end <= |lines| && step(Open, lines[i], LineAt(lines, i + 1)) == Some(Fenced)
    && Keeps(step, lines, i + 1, end, Fenced)
    && (end < |lines| ==> step(Fenced, lines[end], LineAt(lines, end + 1)) == Some(Open))
  }

  function PastFence(lines: seq<string>, end: nat): nat { if end < |lines| then end + 1 else end }

  lemma FencePassed(step: LineStep, lines: seq<string>, i: nat, end: nat)
    requires FenceRun(step, lines, i, end)
    ensures Run(step, lines, i, Open) == Run(step, lines, PastFence(lines, end), Open)
  {
    RunKeeps(step, lines, i + 1, end, Fenced);
  }

  lemma FenceScanned(lines: seq<string>, i: nat)
    requires i < |lines| && !Blank(lines[i]) && KindAt(lines, i) == FenceKind
    ensures Scan(lines, i, Open) == Scan(lines, BlockAt(lines, i).to, Open)
  {
    FenceRead(lines, i);
    FenceReach(lines, i);
    FencePassed(StepOn, lines, i, RunEnd(lines, i + 1, InFence));
  }

  lemma FenceRead(lines: seq<string>, i: nat)
    requires i < |lines| && !Blank(lines[i]) && KindAt(lines, i) == FenceKind
    ensures FenceRun(StepOn, lines, i, RunEnd(lines, i + 1, InFence))
  {
    FenceEnters(lines, i);
    FencedSteps(lines, i + 1);
  }

  lemma FenceEnters(lines: seq<string>, i: nat)
    requires i < |lines| && !Blank(lines[i]) && KindAt(lines, i) == FenceKind
    ensures StepOn(Open, lines[i], LineAt(lines, i + 1)) == Some(Fenced)
  {
    EnterMirrors(lines, i);
    EntersMode(lines, i, Fenced);
  }

  lemma FenceReach(lines: seq<string>, i: nat)
    requires i < |lines| && KindAt(lines, i) == FenceKind
    ensures BlockAt(lines, i).to == PastFence(lines, RunEnd(lines, i + 1, InFence))
  {
    var end := FenceAt(lines, i);
  }

  lemma RowsSteps(lines: seq<string>, i: nat)
    requires i <= |lines|
    ensures var end := RunEnd(lines, i, InTable); Keeps(StepOn, lines, i, end, Rows) && Drops(StepOn, lines, end, Rows)
  {
    forall line, next
      ensures InTable(line, next) <==> Continues(Rows, line)
    {}
    RunSteps(lines, i, InTable, Rows);
  }

  lemma TablePassed(step: LineStep, lines: seq<string>, i: nat, end: nat)
    requires i + 2 <= end <= |lines| && step(Open, lines[i], LineAt(lines, i + 1)) == Some(Divider)
    requires step(Divider, lines[i + 1], LineAt(lines, i + 2)) == Some(Rows)
    requires Keeps(step, lines, i + 2, end, Rows) && Drops(step, lines, end, Rows)
    ensures Run(step, lines, i, Open) == Run(step, lines, end, Open)
  {
    RunKeeps(step, lines, i + 2, end, Rows);
  }

  lemma TableScanned(lines: seq<string>, i: nat)
    requires i < |lines| && !Blank(lines[i]) && KindAt(lines, i) == TableKind
    ensures Scan(lines, i, Open) == Scan(lines, BlockAt(lines, i).to, Open)
  {
    var end := TableAt(lines, i);
    EnterMirrors(lines, i);
    EntersMode(lines, i, Divider);
    RowsSteps(lines, i + 2);
    DividerStep(lines[i + 1], LineAt(lines, i + 2));
    TablePassed(StepOn, lines, i, end);
  }

  lemma DividerStep(line: string, next: string)
    ensures StepOn(Divider, line, next) == Some(Rows)
  {}

  lemma ListSteps(lines: seq<string>, i: nat, ordered: bool)
    requires i <= |lines|
    ensures var end := RunEnd(lines, i, InList(ordered));
            Keeps(StepOn, lines, i, end, Items(ordered)) && Drops(StepOn, lines, end, Items(ordered))
  {
    forall line, next
      ensures InList(ordered)(line, next) <==> Continues(Items(ordered), line)
    {}
    RunSteps(lines, i, InList(ordered), Items(ordered));
  }

  lemma QuoteSteps(lines: seq<string>, i: nat)
    requires i <= |lines|
    ensures var end := RunEnd(lines, i, InQuote);
            Keeps(StepOn, lines, i, end, Quoting) && Drops(StepOn, lines, end, Quoting)
  {
    forall line, next
      ensures InQuote(line, next) <==> Continues(Quoting, line)
    {}
    RunSteps(lines, i, InQuote, Quoting);
  }

  /** A list or quote whose first line enters the mode. */
  lemma EnteredRun(lines: seq<string>, i: nat, end: nat, mode: Mode)
    requires i < end <= |lines| && StepOn(Open, lines[i], LineAt(lines, i + 1)) == Some(mode)
    requires Keeps(StepOn, lines, i, end, mode) && Drops(StepOn, lines, end, mode)
    ensures Scan(lines, i, Open) == Scan(lines, end, Open)
  {
    BlockPassed(StepOn, lines, i, end, mode);
  }

  lemma ListScanned(lines: seq<string>, i: nat)
    requires i < |lines| && !Blank(lines[i]) && KindAt(lines, i) == ListKind && !Stalling(lines[i])
    ensures Scan(lines, i, Open) == Scan(lines, BlockAt(lines, i).to, Open)
  {
    var ordered, end := ListAt(lines, i);
    EnterMirrors(lines, i);
    EntersMode(lines, i, Items(ordered));
    AdvancesExactly(lines, i);
    ListSteps(lines, i, ordered);
    EnteredRun(lines, i, end, Items(ordered));
  }

  lemma QuoteScanned(lines: seq<string>, i: nat)
    requires i < |lines| && !Blank(lines[i]) && KindAt(lines, i) == QuoteKind
    ensures Scan(lines, i, Open) == Scan(lines, BlockAt(lines, i).to, Open)
  {
    var end := QuoteAt(lines, i);
    EnterMirrors(lines, i);
    EntersMode(lines, i, Quoting);
    AdvancesExactly(lines, i);
    QuoteSteps(lines, i);
    EnteredRun(lines, i, end, Quoting);
  }

  lemma ProseStaysOpen(line: string, next: string)
    requires !StartsBlock(line, next)
    ensures StepOn(Open, line, next) == Some(Open)
  {
    assert !StartsList(line) && !OpensTable(line, next);
    NothingEntered(line, next);
  }

  lemma NothingEntered(line: string, next: string)
    requires !IsFence(line) && !StartsList(line) && !IsQuote(line) && !OpensTable(line, next)
    ensures StepOn(Open, line, next) == Some(Open)
  {}

  /** Lines inside a paragraph leave everything open. */
  lemma ProseSteps(lines: seq<string>, i: nat)
    requires i <= |lines|
    ensures Keeps(StepOn, lines, i, RunEnd(lines, i, InParagraph), Open)
  {
    RunPasses(lines, i, InParagraph);
    forall k | i <= k < RunEnd(lines, i, InParagraph)
      ensures StepOn(Open, lines[k], LineAt(lines, k + 1)) == Some(Open)
    {
      assert InParagraph(lines[k], LineAt(lines, k + 1));
      ProseStaysOpen(lines[k], LineAt(lines, k + 1));
    }
  }

  lemma ParagraphScanned(lines: seq<string>, i: nat)
    requires i < |lines| && !Blank(lines[i]) && KindAt(lines, i) == ParagraphKind
    ensures Scan(lines, i, Open) == Scan(lines, BlockAt(lines, i).to, Open)
  {
    var end := ParagraphAt(lines, i);
    EnterMirrors(lines, i);
    EntersMode(lines, i, Open);
    ProseSteps(lines, i + 1);
    BlockPassed(StepOn, lines, i, end, Open);
  }

  lemma OneLineScanned(lines: seq<string>, i: nat)
    requires i < |lines| && !Blank(lines[i]) && (KindAt(lines, i) == HeadingKind || KindAt(lines, i) == RuleKind)
    ensures Scan(lines, i, Open) == Scan(lines, i + 1, Open)
  {
    EnterMirrors(lines, i);
    EntersMode(lines, i, Open);
  }

  /** A block that the parser builds is passed over by the scan. */
  lemma BlockScanned(lines: seq<string>, i: nat)
    requires i < |lines| && !Blank(lines[i]) && !Stuttering(lines, i)
    ensures BlockAt(lines, i).to > i && Scan(lines, i, Open) == Scan(lines, BlockAt(lines, i).to, Open)
  {
    AdvancesExactly(lines, i);
    match KindAt(lines, i) {
      case FenceKind => FenceScanned(lines, i);
      case HeadingKind => OneLineBlock(lines, i);
      case RuleKind => OneLineBlock(lines, i);
      case TableKind => TableScanned(lines, i);
      case ListKind => ListScanned(lines, i);
      case QuoteKind => QuoteScanned(lines, i);
      case ParagraphKind => ParagraphScanned(lines, i);
    }
  }

  lemma OneLineBlock(lines: seq<string>, i: nat)
    requires i < |lines| && !Blank(lines[i]) && (KindAt(lines, i) == HeadingKind || KindAt(lines, i) == RuleKind)
    ensures BlockAt(lines, i).to == i + 1 && Scan(lines, i, Open) == Scan(lines, i + 1, Open)
  {
    OneLineScanned(lines, i);
  }

  lemma StutterScanned(lines: seq<string>, i: nat)
    requires i < |lines| && !Blank(lines[i]) && Stuttering(lines, i)
    ensures Scan(lines, i, Open) == Some(i)
  {
    EnterMirrors(lines, i);
  }

  function OutcomeAt(r: Outcome): Option<nat> {
    if r.Stuck? then Some(r.at) else None
  }

  /**
   For every document: the parser gets stuck at exactly the line at which the scan hangs, and ends
   exactly when the scan does.
   */
  lemma {:induction false} ParserStopsWhereScanHangs(lines: seq<string>, i: nat)
    requires i <= |lines|
    ensures OutcomeAt(ParseFrom(lines, i)) == Scan(lines, i, Open)
    decreases |lines| - i
  {
    if i == |lines| {
      ParseEnd(lines);
    } else if Blank(lines[i]) {
      ParseBlank(lines, i);
      ParserStopsWhereScanHangs(lines, i + 1);
    } else if Stuttering(lines, i) {
      StutterScanned(lines, i);
      AdvancesExactly(lines, i);
    } else {
      BlockScanned(lines, i);
      ParserStopsWhereScanHangs(lines, BlockAt(lines, i).to);
      ParseOnward(lines, i);
    }
  }

  lemma ParseOnward(lines: seq<string>, i: nat)
    requires i < |lines| && !Blank(lines[i]) && BlockAt(lines, i).to > i
    ensures OutcomeAt(ParseFrom(lines, i)) == OutcomeAt(ParseFrom(lines, BlockAt(lines, i).to))
  {}

  // ---- conditions on the lines alone ----

  /** No line with a bar stands before a table divider. */
  predicate NoTables(lines: seq<string>) {
    forall k | 0 <= k < |lines| :: !StartsTable(lines, k)
  }

  function FencesIn(lines: seq<string>, i: nat, j: nat): nat
    requires i <= j <= |lines|
    decreases j - i
  {
    if i == j then 0 else (if IsFence(lines[i]) then 1 else 0) + FencesIn(lines, i + 1, j)
  }

  /** Line `j` lies inside a fence if one is open at `i` when `open` holds. */
  predicate InsideFence(lines: seq<string>, i: nat, j: nat, open: bool)
    requires i <= j <= |lines|
  {
    open <==> FencesIn(lines, i, j) % 2 == 0
  }

  lemma FenceIsNoItem(line: string)
    requires IsFence(line)
    ensures !IsQuote(line) && ItemText(line, false).None? && ItemText(line, true).None?
  {
    var w := Lead(line);
    assert line[w..][0] == line[w];
  }

  lemma StallingContinuesNothing(line: string, mode: Mode)
    requires Stalling(line) && (mode.Open? || mode.Items? || mode.Quoting?)
    ensures !Continues(mode, line)
  {
    var w := Lead(line);
    assert line[w..][0] == line[w];
    assert !(IsBullet(line) && OrderedEnd(line) > 0);
    assert !(IsOrdered(line) && BulletEnd(line) > 0);
  }

  lemma StallingEnters(line: string, next: string)
    requires Stalling(line) && !OpensTable(line, next)
    ensures Enter(line, next) == Items(IsOrdered(line))
  {
    ListLineIsNoFence(line);
    ListLineIsNoHeading(line);
    ListLineIsNoRule(line);
  }

  /** Without tables a line hangs exactly when it stalls outside a fence; only fence lines toggle. */
  lemma StepWithoutTables(mode: Mode, line: string, next: string)
    requires !mode.Divider? && !mode.Rows? && !OpensTable(line, next)
    ensures Hangs(mode, line, next) <==> Stalling(line) && !mode.Fenced?
    ensures var after := Next(mode, line, next);
            !after.Divider? && !after.Rows? && (after.Fenced? <==> mode.Fenced? != IsFence(line))
  {
    HangsWithoutTables(mode, line, next);
    TogglesWithoutTables(mode, line, next);
  }

  lemma HangsWithoutTables(mode: Mode, line: string, next: string)
    requires !mode.Divider? && !mode.Rows? && !OpensTable(line, next)
    ensures Hangs(mode, line, next) <==> Stalling(line) && !mode.Fenced?
  {
    if Stalling(line) && !mode.Fenced? {
      StallingContinuesNothing(line, mode);
      StallingEnters(line, next);
    }
  }

  lemma TogglesWithoutTables(mode: Mode, line: string, next: string)
    requires !mode.Divider? && !mode.Rows? && !OpensTable(line, next)
    ensures var after := Next(mode, line, next);
            !after.Divider? && !after.Rows? && (after.Fenced? <==> mode.Fenced? != IsFence(line))
  {
    if IsFence(line) {
      FenceToggles(mode, line, next);
    } else {
      NoFenceKeeps(mode, line, next);
    }
  }

  lemma FenceToggles(mode: Mode, line: string, next: string)
    requires !mode.Divider? && !mode.Rows? && !OpensTable(line, next) && IsFence(line)
    ensures Next(mode, line, next) == if mode.Fenced? then Open else Fenced
  {
    FenceIsNoItem(line);
    FenceIsNotBlank(line);
  }

  lemma NoFenceKeeps(mode: Mode, line: string, next: string)
    requires !mode.Divider? && !mode.Rows? && !OpensTable(line, next) && !IsFence(line)
    ensures var after := Next(mode, line, next);
            !after.Divider? && !after.Rows? && after.Fenced? == mode.Fenced?
  {
    EnterPlain(line, next);
  }

  lemma EnterPlain(line: string, next: string)
    requires !OpensTable(line, next) && !IsFence(line)
    ensures var mode := Enter(line, next); !mode.Divider? && !mode.Rows? && !mode.Fenced?
  {}

  lemma FenceIsNotBlank(line: string)
    requires IsFence(line)
    ensures !Blank(line)
  {
    var w := Lead(line);
    assert line[w..][0] == line[w];
    NotBlank(line, w);
  }

  lemma TableFree(lines: seq<string>, i: nat)
    requires NoTables(lines) && i < |lines|
    ensures !OpensTable(lines[i], LineAt(lines, i + 1))
  {
    EmptyIsNoDivider();
    assert !StartsTable(lines, i);
  }

  /** Every stalling line from `i` on lies inside a fence. */
  predicate StallsInside(lines: seq<string>, i: nat, open: bool)
    requires i <= |lines|
  {
    forall j | i <= j < |lines| && Stalling(lines[j]) :: InsideFence(lines, i, j, open)
  }

  lemma StallsInsideStep(lines: seq<string>, i: nat, open: bool)
    requires i < |lines|
    ensures StallsInside(lines, i, open)
            <==> (Stalling(lines[i]) ==> open) && StallsInside(lines, i + 1, open != IsFence(lines[i]))
  {
    assert InsideFence(lines, i, i, open) == open;
    forall j | i < j < |lines|
      ensures InsideFence(lines, i, j, open) == InsideFence(lines, i + 1, j, open != IsFence(lines[i]))
    {}
  }

  /** Which lines stall and which are fences. */
  datatype Marks = Marks(stalls: seq<bool>, fences: seq<bool>)

  function MarksOf(lines: seq<string>): (m: Marks)
    ensures |m.stalls| == |m.fences| == |lines|
    ensures forall k | 0 <= k < |lines| :: m.stalls[k] == Stalling(lines[k]) && m.fences[k] == IsFence(lines[k])
  {
    Marks(seq(|lines|, k requires 0 <= k < |lines| => Stalling(lines[k])),
          seq(|lines|, k requires 0 <= k < |lines| => IsFence(lines[k])))
  }

  predicate Plain(mode: Mode) { !mode.Divider? && !mode.Rows? }

  /** In modes outside tables a line hangs if it stalls outside a fence, and only fences toggle. */
  ghost predicate Toggles(step: LineStep, line: string, next: string, stalls: bool, fence: bool) {
    forall m | Plain(m) ::
      if stalls && !m.Fenced? then step(m, line, next).None?
      else step(m, line, next).Some? && Plain(step(m, line, next).value)
           && (step(m, line, next).value.Fenced? <==> m.Fenced? != fence)
  }

  /** The same condition read line by line. */
  predicate AllInside(marks: Marks, i: nat, open: bool)
    requires i <= |marks.stalls| == |marks.fences|
    decreases |marks.stalls| - i
  {
    i == |marks.stalls| || ((marks.stalls[i] ==> open) && AllInside(marks, i + 1, open != marks.fences[i]))
  }

  lemma {:induction false} RunByParity(step: LineStep, lines: seq<string>, marks: Marks, i: nat, mode: Mode)
    requires i <= |lines| == |marks.stalls| == |marks.fences| && Plain(mode)
    requires forall k | 0 <= k < |lines| ::
               Toggles(step, lines[k], LineAt(lines, k + 1), marks.stalls[k], marks.fences[k])
    ensures Run(step, lines, i, mode).None? <==> AllInside(marks, i, mode.Fenced?)
    decreases |lines| - i
  {
    if i < |lines| {
      var next := LineAt(lines, i + 1);
      assert Toggles(step, lines[i], next, marks.stalls[i], marks.fences[i]);
      if step(mode, lines[i], next).Some? {
        RunByParity(step, lines, marks, i + 1, step(mode, lines[i], next).value);
      }
    }
  }

  /** A condition on the position that follows the marks line by line. */
  ghost predicate Follows(inside: (nat, bool) -> bool, marks: Marks, k: nat)
    requires k < |marks.stalls| == |marks.fences|
  {
    forall open :: inside(k, open) <==> (marks.stalls[k] ==> open) && inside(k + 1, open != marks.fences[k])
  }

  lemma {:induction false} AllInsideIs(inside: (nat, bool) -> bool, marks: Marks, i: nat, open: bool)
    requires i <= |marks.stalls| == |marks.fences|
    requires forall k | 0 <= k < |marks.stalls| :: Follows(inside, marks, k)
    requires inside(|marks.stalls|, true) && inside(|marks.stalls|, false)
    ensures AllInside(marks, i, open) <==> inside(i, open)
    decreases |marks.stalls| - i
  {
    if i < |marks.stalls| {
      assert Follows(inside, marks, i);
      AllInsideIs(inside, marks, i + 1, open != marks.fences[i]);
    }
  }

  function InsideFrom(lines: seq<string>): (nat, bool) -> bool {
    (i: nat, open) => i <= |lines| && StallsInside(lines, i, open)
  }

  lemma AllInsideMeans(lines: seq<string>, marks: Marks, i: nat, open: bool)
    requires i <= |lines| && marks == MarksOf(lines)
    ensures AllInside(marks, i, open) <==> StallsInside(lines, i, open)
  {
    forall k | 0 <= k < |lines|
      ensures Follows(InsideFrom(lines), marks, k)
    {
      InsideFollows(lines, marks, k);
    }
    AllInsideIs(InsideFrom(lines), marks, i, open);
  }

  lemma InsideFollows(lines: seq<string>, marks: Marks, k: nat)
    requires k < |lines| == |marks.stalls| == |marks.fences|
    requires marks.stalls[k] == Stalling(lines[k]) && marks.fences[k] == IsFence(lines[k])
    ensures Follows(InsideFrom(lines), marks, k)
  {
    InsideStep(lines, k, true, marks.stalls[k], marks.fences[k]);
    InsideStep(lines, k, false, marks.stalls[k], marks.fences[k]);
  }

  lemma InsideStep(lines: seq<string>, i: nat, open: bool, stalls: bool, fence: bool)
    requires i < |lines| && stalls == Stalling(lines[i]) && fence == IsFence(lines[i])
    ensures InsideFrom(lines)(i, open) <==> (stalls ==> open) && InsideFrom(lines)(i + 1, open != fence)
  {
    StallsInsideStep(lines, i, open);
  }

  lemma LineToggles(line: string, next: string)
    requires !OpensTable(line, next)
    ensures Toggles(StepOn, line, next, Stalling(line), IsFence(line))
  {
    forall m | Plain(m)
      ensures if Stalling(line) && !m.Fenced? then StepOn(m, line, next).None?
              else StepOn(m, line, next).Some? && Plain(StepOn(m, line, next).value)
                   && (StepOn(m, line, next).value.Fenced? <==> m.Fenced? != IsFence(line))
    {
      StepWithoutTables(m, line, next);
    }
  }

  lemma ScanByParity(lines: seq<string>, i: nat, mode: Mode)
    requires NoTables(lines) && i <= |lines| && Plain(mode)
    ensures Scan(lines, i, mode).None? <==> StallsInside(lines, i, mode.Fenced?)
  {
    var marks := MarksOf(lines);
    forall k | 0 <= k < |lines|
      ensures Toggles(StepOn, lines[k], LineAt(lines, k + 1), marks.stalls[k], marks.fences[k])
    {
      TableFree(lines, k);
      LineToggles(lines[k], LineAt(lines, k + 1));
    }
    RunByParity(StepOn, lines, marks, i, mode);
    AllInsideMeans(lines, marks, i, mode.Fenced?);
  }

  /**
   For every text without tables the parser terminates exactly when each stalling line has an odd
   number of fence lines before it, that is, lies inside a fence.
   */
  lemma TerminatesExactly(text: string)
    requires NoTables(Lines(text))
    ensures var lines := Lines(text);
            ParseFrom(lines, 0).Finished?
            <==> forall j | 0 <= j < |lines| && Stalling(lines[j]) :: FencesIn(lines, 0, j) % 2 == 1
  {
    var lines := Lines(text);
    ParserStopsWhereScanHangs(lines, 0);
    ScanByParity(lines, 0, Open);
    assert forall j | 0 <= j < |lines| :: InsideFence(lines, 0, j, false) <==> FencesIn(lines, 0, j) % 2 == 1;
  }

  ghost predicate NeverHangs(step: LineStep, line: string, next: string) {
    forall m :: step(m, line, next).Some?
  }

  lemma {:induction false} NothingHangs(step: LineStep, lines: seq<string>, i: nat, mode: Mode)
    requires i <= |lines|
    requires forall k | i <= k < |lines| :: NeverHangs(step, lines[k], LineAt(lines, k + 1))
    ensures Run(step, lines, i, mode).None?
    decreases |lines| - i
  {
    if i < |lines| {
      assert NeverHangs(step, lines[i], LineAt(lines, i + 1));
      NothingHangs(step, lines, i + 1, step(mode, lines[i], LineAt(lines, i + 1)).value);
    }
  }

  lemma OnlyStallingHangs(line: string, next: string)
    requires !Stalling(line)
    ensures NeverHangs(StepOn, line, next)
  {}

  /** Every text without a stalling line is parsed to its end, tables and all. */
  lemma NoStallingTerminates(text: string)
    requires forall j | 0 <= j < |Lines(text)| :: !Stalling(Lines(text)[j])
    ensures ParseFrom(Lines(text), 0).Finished?
  {
    var lines := Lines(text);
    ParserStopsWhereScanHangs(lines, 0);
    forall k | 0 <= k < |lines|
      ensures NeverHangs(StepOn, lines[k], LineAt(lines, k + 1))
    {
      OnlyStallingHangs(lines[k], LineAt(lines, k + 1));
    }
    NothingHangs(StepOn, lines, 0, Open);
  }

  /** Every text without U+2028 and U+2029 is parsed to its end. */
  lemma PlainTextTerminates(text: string)
    requires '\U{2028}' !in text && '\U{2029}' !in text
    ensures ParseFrom(Lines(text), 0).Finished?
  {
    LinesHoldNoBreaks(text);
    forall j | 0 <= j < |Lines(text)|
      ensures !Stalling(Lines(text)[j])
    {
      assert Lines(text)[j] in Lines(text);
      StallingNeedsTerminator(Lines(text)[j]);
    }
    NoStallingTerminates(text);
  }

  /** A bullet whose text holds U+2028: the source's loop never leaves it. */
  lemma SeparatorInBulletHangs(text: string)
    requires text == "- a\U{2028}b"
    ensures ParseFrom(Lines(text), 0) == Stuck(0)
  {
    NormalizePlain(text);
    SplitWhole(text, '\n');
    BulletStalls(text);
    EmptyIsNoDivider();
    StallingStutters([text], 0);
    StuckExactly([text], 0, 0);
  }

  lemma BulletStalls(line: string)
    requires line == "- a\U{2028}b"
    ensures Stalling(line)
  {
    RunLengthUnique(IsSpace, line, 0);
    RunLengthUnique(IsDigit, line[0..], 0);
    RunLengthUnique(IsSpace, line[1..], 1);
    assert line[2..][1] == '\U{2028}';
  }
}
