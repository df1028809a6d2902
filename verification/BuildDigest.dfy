/**
 Reducing a build journal to something renderable (`digest` in public/dominion-lenses.js).
 An absent string field of an event is the empty string, as the source's `||` treats both alike.
 */
module BuildDigest {
  import opened Sequences

  datatype PlanMove = PlanMove(id: string, title: string, why: string, files: seq<string>)

  datatype Outcome = Done | Checkpoint | Failed | Stopped

  datatype Event =
    | Job(at: int, workspaceId: string)
    | Plan(planTitle: string, planMoves: seq<PlanMove>)
    | MoveUpdate(id: string, title: string, why: string, state: string, taskClass: string, model: string,
                 routeWhy: string, message: string, fileCount: Option<int>)
    | FileWritten(path: string, bytes: int)
    | Diff(path: string, diff: string, added: Option<int>, removed: Option<int>)
    | CheckRun(detail: string)
    | Cost(usd: real, credits: real)
    | Snapshot(detail: string)
    | NeedInput(question: string)
    | Answered
    | Terminal(kind: Outcome, at: int, code: string)
    | Other(name: string)

  datatype Move = Move(id: string, title: string, why: string, files: seq<string>, state: string,
                       taskClass: string, model: string, reason: string, message: string, fileCount: Option<int>)

  datatype FileEntry =
    FileEntry(path: string, bytes: Option<int>, diff: string, added: Option<int>, removed: Option<int>)

  /** `moves` and `files` are insertion-ordered maps: no two entries share a key. */
  datatype Digest = Digest(
    title: string, moves: seq<Move>, files: seq<FileEntry>, runs: seq<Event>, costUsd: real, costCredits: real,
    snapshots: seq<Event>, question: Option<string>, outcome: Option<Outcome>, interrupted: bool,
    started: int, ended: int, workspaceId: string)

  const EMPTY: Digest := Digest("", [], [], [], 0.0, 0.0, [], None, None, false, 0, 0, "")

  function Or(a: string, b: string): string { if a != "" then a else b }

  // ---- insertion-ordered maps ----

  function FindMove(moves: seq<Move>, id: string): (r: Option<Move>)
    ensures r.Some? ==> r.value.id == id && r.value in moves
    ensures r.None? ==> forall m | m in moves :: m.id != id
  {
    if moves == [] then None else if moves[0].id == id then Some(moves[0]) else FindMove(moves[1..], id)
  }

  function SetMove(moves: seq<Move>, m: Move): (r: seq<Move>)
  {
    if moves == [] then [m] else if moves[0].id == m.id then [m] + moves[1..] else [moves[0]] + SetMove(moves[1..], m)
  }

  function FindFile(files: seq<FileEntry>, path: string): (r: Option<FileEntry>)
    ensures r.Some? ==> r.value.path == path && r.value in files
  {
    if files == [] then None else if files[0].path == path then Some(files[0]) else FindFile(files[1..], path)
  }

  function SetFile(files: seq<FileEntry>, f: FileEntry): seq<FileEntry> {
    if files == [] then [f]
    else if files[0].path == f.path then [f] + files[1..]
    else [files[0]] + SetFile(files[1..], f)
  }

  // ---- one event ----

  function AddPlanned(moves: seq<Move>, m: PlanMove): seq<Move> {
    if FindMove(moves, m.id).Some? then moves
    else SetMove(moves, Move(m.id, m.title, m.why, m.files, "planned", "", "", "", "", None))
  }

  function AddAllPlanned(moves: seq<Move>, ms: seq<PlanMove>): seq<Move> {
    if ms == [] then moves else AddPlanned(AddAllPlanned(moves, ms[..|ms| - 1]), ms[|ms| - 1])
  }

  function Updated(prev: Move, e: Event): Move
    requires e.MoveUpdate?
  {
    Move(prev.id, Or(e.title, prev.title), Or(e.why, prev.why), prev.files, Or(Or(e.state, prev.state), "planned"),
         Or(e.taskClass, prev.taskClass), Or(e.model, prev.model), Or(e.routeWhy, prev.reason), e.message,
         if e.fileCount.Some? then e.fileCount else prev.fileCount)
  }

  function Blank(id: string): Move {
    Move(id, "", "", [], "", "", "", "", "", None)
  }

  function Step(d: Digest, e: Event): Digest {
    match e
    case Job(at, workspaceId) => d.(started := at, workspaceId := workspaceId)
    case Plan(title, ms) => d.(title := Or(title, d.title), moves := AddAllPlanned(d.moves, ms))
    case MoveUpdate(id, _, _, _, _, _, _, _, _) =>
      var prev := FindMove(d.moves, id);
      d.(moves := SetMove(d.moves, Updated(if prev.Some? then prev.value else Blank(id), e)))
    case FileWritten(path, bytes) => d.(files := SetFile(d.files, FileEntry(path, Some(bytes), "", None, None)))
    case Diff(path, diff, added, removed) =>
      var prev := FindFile(d.files, path);
      var bytes := if prev.Some? then prev.value.bytes else None;
      d.(files := SetFile(d.files, FileEntry(path, bytes, diff, added, removed)))
    case CheckRun(_) => d.(runs := d.runs + [e])
    case Cost(usd, credits) => d.(costUsd := d.costUsd + usd, costCredits := d.costCredits + credits)
    case Snapshot(_) => d.(snapshots := d.snapshots + [e])
    case NeedInput(q) => d.(question := Some(q))
    case Answered => d.(question := None)
    case Terminal(kind, at, code) =>
      d.(outcome := Some(kind), ended := at, interrupted := d.interrupted || code == "interrupted")
    case Other(_) => d
  }

  function DigestOf(events: seq<Event>): Digest {
    if events == [] then EMPTY else Step(DigestOf(events[..|events| - 1]), events[|events| - 1])
  }

  /** The inner loop of a `plan` event: only ids not yet present get a row. */
  method AddPlan(before: seq<Move>, ms: seq<PlanMove>) returns (moves: seq<Move>)
    ensures moves == AddAllPlanned(before, ms)
  {
    moves := before;
    for k := 0 to |ms|
      invariant moves == AddAllPlanned(before, ms[..k])
    {
      assert ms[..k + 1][..k] == ms[..k];
      if FindMove(moves, ms[k].id).None? {
        moves := SetMove(moves, Move(ms[k].id, ms[k].title, ms[k].why, ms[k].files, "planned", "", "", "", "", None));
      }
    }
    assert ms[..|ms|] == ms;
  }

  /** One turn of the reducer's loop: an event updates the record. */
  method Absorb(before: Digest, e: Event) returns (d: Digest)
    ensures d == Step(before, e)
  {
    d := before;
    match e {
      case Job(at, workspaceId) =>
        d := d.(started := at, workspaceId := workspaceId);
      case Plan(title, ms) =>
        var moves := AddPlan(d.moves, ms);
        d := d.(title := Or(title, d.title), moves := moves);
      case MoveUpdate(id, title, why, state, taskClass, model, routeWhy, message, fileCount) =>
        var found := FindMove(d.moves, id);
        var prev := if found.Some? then found.value else Blank(id);
        var next := prev.(title := Or(title, prev.title), why := Or(why, prev.why),
          state := Or(Or(state, prev.state), "planned"), taskClass := Or(taskClass, prev.taskClass),
          model := Or(model, prev.model), reason := Or(routeWhy, prev.reason), message := message);
        if fileCount.Some? {
          next := next.(fileCount := fileCount);
        }
        d := d.(moves := SetMove(d.moves, next));
      case FileWritten(path, bytes) =>
        d := d.(files := SetFile(d.files, FileEntry(path, Some(bytes), "", None, None)));
      case Diff(path, diff, added, removed) =>
        var found := FindFile(d.files, path);
        var f := if found.Some? then found.value else FileEntry(path, None, "", None, None);
        d := d.(files := SetFile(d.files, f.(diff := diff, added := added, removed := removed)));
      case CheckRun(_) =>
        d := d.(runs := d.runs + [e]);
      case Cost(usd, credits) =>
        d := d.(costUsd := d.costUsd + usd, costCredits := d.costCredits + credits);
      case Snapshot(_) =>
        d := d.(snapshots := d.snapshots + [e]);
      case NeedInput(q) =>
        d := d.(question := Some(q));
      case Answered =>
        d := d.(question := None);
      case Terminal(kind, at, code) =>
        d := d.(outcome := Some(kind), ended := at);
        if code == "interrupted" {
          d := d.(interrupted := true);
        }
      case Other(_) =>
    }
  }

  /** The reducer as the page runs it: one pass over the journal. */
  method RunDigest(events: seq<Event>) returns (d: Digest)
    ensures d == DigestOf(events)
  {
    d := EMPTY;
    for i := 0 to |events|
      invariant d == DigestOf(events[..i])
    {
      assert events[..i + 1][..i] == events[..i];
      d := Absorb(d, events[i]);
    }
    assert events[..|events|] == events;
  }

  // ---- the declarative reading of a journal ----

  function TotalUsd(events: seq<Event>): real {
    if events == [] then 0.0
    else (if events[0].Cost? then events[0].usd else 0.0) + TotalUsd(events[1..])
  }

  lemma {:induction false} TotalUsdConcat(a: seq<Event>, b: seq<Event>)
    ensures TotalUsd(a + b) == TotalUsd(a) + TotalUsd(b)
    decreases |a|
  {
    if a == [] {
      assert a + b == b;
    } else {
      assert (a + b)[1..] == a[1..] + b;
      TotalUsdConcat(a[1..], b);
    }
  }

  lemma {:induction false} CostIsTotal(events: seq<Event>)
    ensures DigestOf(events).costUsd == TotalUsd(events)
    decreases |events|
  {
    if events != [] {
      var n := |events| - 1;
      CostIsTotal(events[..n]);
      SplitLast(events);
      TotalUsdConcat(events[..n], [events[n]]);
    }
  }

  /** The displayed cost adds up over any way of cutting the journal in two. */
  lemma CostIsAdditive(a: seq<Event>, b: seq<Event>)
    ensures DigestOf(a + b).costUsd == DigestOf(a).costUsd + DigestOf(b).costUsd
  {
    CostIsTotal(a);
    CostIsTotal(b);
    CostIsTotal(a + b);
    TotalUsdConcat(a, b);
  }

  /** Event `k` asks `q`, and nothing later asks again or answers. */
  predicate OpenQuestion(events: seq<Event>, k: nat, q: string) {
    && k < |events| && events[k] == NeedInput(q)
    && forall j | k < j < |events| :: !events[j].NeedInput? && !events[j].Answered?
  }

  lemma {:induction false} QuestionIsTheOpenOne(events: seq<Event>, q: string)
    ensures DigestOf(events).question == Some(q) <==> HasOpen(events, q)
    decreases |events|
  {
    if events != [] {
      var before := events[..|events| - 1];
      QuestionIsTheOpenOne(before, q);
      OpenGrows(events, q);
    }
  }

  ghost predicate HasOpen(events: seq<Event>, q: string) {
    exists k :: OpenQuestion(events, k, q)
  }

  /** The last event opens its own question, closes every question, or leaves the open one. */
  lemma OpenGrows(events: seq<Event>, q: string)
    requires events != []
    ensures var e := events[|events| - 1];
            HasOpen(events, q) <==>
            if e.NeedInput? then e.question == q
            else if e.Answered? then false
            else HasOpen(events[..|events| - 1], q)
  {
    var n := |events| - 1;
    var before := events[..n];
    if events[n].NeedInput? && events[n].question == q {
      assert OpenQuestion(events, n, q);
    } else if !events[n].NeedInput? && !events[n].Answered? {
      if k :| OpenQuestion(before, k, q) {
        assert OpenQuestion(events, k, q);
      }
      if k :| OpenQuestion(events, k, q) {
        assert OpenQuestion(before, k, q);
      }
    }
  }

  // files

  lemma {:induction false} FindSetFile(files: seq<FileEntry>, f: FileEntry, path: string)
    ensures FindFile(SetFile(files, f), path) == if path == f.path then Some(f) else FindFile(files, path)
    decreases |files|
  {
    if files != [] {
      FindSetFile(files[1..], f, path);
      assert SetFile(files, f)[1..] == if files[0].path == f.path then files[1..] else SetFile(files[1..], f);
    }
  }

  predicate Touches(e: Event, path: string) {
    (e.FileWritten? || e.Diff?) && e.path == path
  }

  /** Event `k` is the last one about this file. */
  predicate LastTouch(events: seq<Event>, k: nat, path: string) {
    && k < |events| && Touches(events[k], path)
    && forall j | k < j < |events| :: !Touches(events[j], path)
  }

  function KnownBytes(d: Digest, path: string): Option<int> {
    var f := FindFile(d.files, path);
    if f.Some? then f.value.bytes else None
  }

  /** What the entry of a file becomes when an event touches it. */
  function Touched(e: Event, bytes: Option<int>): FileEntry
    requires e.FileWritten? || e.Diff?
  {
    match e
    case FileWritten(path, written) => FileEntry(path, Some(written), "", None, None)
    case Diff(path, diff, added, removed) => FileEntry(path, bytes, diff, added, removed)
  }

  lemma StepFile(d: Digest, e: Event, path: string)
    ensures FindFile(Step(d, e).files, path)
            == if Touches(e, path) then Some(Touched(e, KnownBytes(d, path))) else FindFile(d.files, path)
  {
    match e {
      case FileWritten(p, bytes) =>
        FindSetFile(d.files, FileEntry(p, Some(bytes), "", None, None), path);
      case Diff(p, diff, added, removed) =>
        FindSetFile(d.files, FileEntry(p, KnownBytes(d, p), diff, added, removed), path);
      case _ =>
    }
  }

  /** The size that the last write of this file reports, if any does. */
  function BytesSaid(events: seq<Event>, path: string): Option<int> {
    if events == [] then None
    else
      var e := events[|events| - 1];
      if e.FileWritten? && e.path == path then Some(e.bytes) else BytesSaid(events[..|events| - 1], path)
  }

  lemma {:induction false} KnownBytesAreSaid(events: seq<Event>, path: string)
    ensures KnownBytes(DigestOf(events), path) == BytesSaid(events, path)
    decreases |events|
  {
    if events != [] {
      var n := |events| - 1;
      KnownBytesAreSaid(events[..n], path);
      StepFile(DigestOf(events[..n]), events[n], path);
    }
  }

  /**
   The whole entry of a file: a rewrite leaves its size alone on record, a diff adds text and counts
   to the size of the last rewrite before it.
   */
  lemma {:induction false} FileFromLastTouch(events: seq<Event>, path: string, k: nat)
    requires LastTouch(events, k, path)
    ensures FindFile(DigestOf(events).files, path) == Some(Touched(events[k], BytesSaid(events[..k], path)))
    decreases |events|
  {
    var n := |events| - 1;
    var before := events[..n];
    StepFile(DigestOf(before), events[n], path);
    if k < n {
      FileFromLastTouch(before, path, k);
      assert before[..k] == events[..k] && before[k] == events[k];
    } else {
      KnownBytesAreSaid(before, path);
    }
  }

  /** A file shows the diff of the last diff event after its last rewrite, and none before one arrives. */
  lemma FileShowsItsLatestDiff(events: seq<Event>, path: string, k: nat)
    requires k < |events| && events[k].Diff? && events[k].path == path
    requires forall j | k < j < |events| :: !Touches(events[j], path)
    ensures FindFile(DigestOf(events).files, path).Some?
    ensures FindFile(DigestOf(events).files, path).value.diff == events[k].diff
    ensures forall bytes :: var rewritten := DigestOf(events + [FileWritten(path, bytes)]);
              FindFile(rewritten.files, path).Some? && FindFile(rewritten.files, path).value.diff == ""
  {
    FileFromLastTouch(events, path, k);
    forall bytes: int
      ensures var rewritten := DigestOf(events + [FileWritten(path, bytes)]);
              FindFile(rewritten.files, path).Some? && FindFile(rewritten.files, path).value.diff == ""
    {
      FileFromLastTouch(events + [FileWritten(path, bytes)], path, |events|);
    }
  }

  // moves

  lemma {:induction false} FindSetMove(moves: seq<Move>, m: Move, id: string)
    ensures FindMove(SetMove(moves, m), id) == if id == m.id then Some(m) else FindMove(moves, id)
    decreases |moves|
  {
    if moves != [] {
      FindSetMove(moves[1..], m, id);
      assert SetMove(moves, m)[1..] == if moves[0].id == m.id then moves[1..] else SetMove(moves[1..], m);
    }
  }

  function FindPlanned(ms: seq<PlanMove>, id: string): (r: Option<PlanMove>)
    ensures r.Some? ==> r.value.id == id
  {
    if ms == [] then None
    else
      var before := FindPlanned(ms[..|ms| - 1], id);
      if before.Some? then before else if ms[|ms| - 1].id == id then Some(ms[|ms| - 1]) else None
  }

  function Planned(m: PlanMove): Move {
    Move(m.id, m.title, m.why, m.files, "planned", "", "", "", "", None)
  }

  /** A plan never alters a move already present, and adds the first entry it has for each new id. */
  lemma {:induction false} PlanOnlyAdds(moves: seq<Move>, ms: seq<PlanMove>, id: string)
    ensures FindMove(AddAllPlanned(moves, ms), id) ==
            if FindMove(moves, id).Some? then FindMove(moves, id)
            else if FindPlanned(ms, id).Some? then Some(Planned(FindPlanned(ms, id).value))
            else None
    decreases |ms|
  {
    if ms != [] {
      var n := |ms| - 1;
      PlanOnlyAdds(moves, ms[..n], id);
      var before := AddAllPlanned(moves, ms[..n]);
      if FindMove(before, ms[n].id).None? {
        FindSetMove(before, Planned(ms[n]), id);
      }
    }
  }

  function PlanIds(ms: seq<PlanMove>): (r: seq<string>)
    ensures |r| == |ms| && forall k | 0 <= k < |ms| :: r[k] == ms[k].id
  {
    seq(|ms|, k requires 0 <= k < |ms| => ms[k].id)
  }

  function MentionedBy(e: Event): seq<string> {
    match e
    case Plan(_, ms) => PlanIds(ms)
    case MoveUpdate(id, _, _, _, _, _, _, _, _) => [id]
    case _ => []
  }

  function Mentions(events: seq<Event>): seq<string> {
    if events == [] then [] else Mentions(events[..|events| - 1]) + MentionedBy(events[|events| - 1])
  }

  /** Keep the first occurrence of every element. */
  function FirstOccurrences(xs: seq<string>): seq<string> {
    if xs == [] then []
    else
      var before := FirstOccurrences(xs[..|xs| - 1]);
      if xs[|xs| - 1] in before then before else before + [xs[|xs| - 1]]
  }

  function Ids(moves: seq<Move>): (r: seq<string>)
    ensures |r| == |moves|
  {
    seq(|moves|, k requires 0 <= k < |moves| => moves[k].id)
  }

  lemma {:induction false} SetMoveIds(moves: seq<Move>, m: Move)
    ensures Ids(SetMove(moves, m)) == if FindMove(moves, m.id).Some? then Ids(moves) else Ids(moves) + [m.id]
    ensures FindMove(moves, m.id).Some? <==> m.id in Ids(moves)
    decreases |moves|
  {
    if moves != [] {
      SetMoveIds(moves[1..], m);
      assert Ids(moves) == [moves[0].id] + Ids(moves[1..]);
      var after := SetMove(moves, m);
      assert Ids(after) == [after[0].id] + Ids(after[1..]);
      if moves[0].id != m.id {
        assert after[1..] == SetMove(moves[1..], m);
      }
    }
  }

  lemma FirstOccurrencesSnoc(xs: seq<string>, x: string)
    ensures FirstOccurrences(xs + [x]) ==
            if x in FirstOccurrences(xs) then FirstOccurrences(xs) else FirstOccurrences(xs) + [x]
  {
    assert (xs + [x])[..|xs|] == xs;
  }

  lemma PlanIdsSnoc(mentioned: seq<string>, ms: seq<PlanMove>)
    requires ms != []
    ensures mentioned + PlanIds(ms) == mentioned + PlanIds(ms[..|ms| - 1]) + [ms[|ms| - 1].id]
  {}

  lemma {:induction false} AddAllPlannedIds(moves: seq<Move>, ms: seq<PlanMove>, mentioned: seq<string>)
    requires Ids(moves) == FirstOccurrences(mentioned)
    ensures Ids(AddAllPlanned(moves, ms)) == FirstOccurrences(mentioned + PlanIds(ms))
    decreases |ms|
  {
    if ms == [] {
      assert mentioned + PlanIds(ms) == mentioned;
    } else {
      var n := |ms| - 1;
      AddAllPlannedIds(moves, ms[..n], mentioned);
      PlanIdsSnoc(mentioned, ms);
      FirstOccurrencesSnoc(mentioned + PlanIds(ms[..n]), ms[n].id);
      SetMoveIds(AddAllPlanned(moves, ms[..n]), Planned(ms[n]));
    }
  }

  lemma UpdateIds(moves: seq<Move>, m: Move, mentioned: seq<string>)
    requires Ids(moves) == FirstOccurrences(mentioned)
    ensures Ids(SetMove(moves, m)) == FirstOccurrences(mentioned + [m.id])
  {
    SetMoveIds(moves, m);
    FirstOccurrencesSnoc(mentioned, m.id);
  }

  lemma StepIds(d: Digest, e: Event, mentioned: seq<string>)
    requires Ids(d.moves) == FirstOccurrences(mentioned)
    ensures Ids(Step(d, e).moves) == FirstOccurrences(mentioned + MentionedBy(e))
  {
    if e.Plan? {
      AddAllPlannedIds(d.moves, e.planMoves, mentioned);
    } else if e.MoveUpdate? {
      MoveStepIds(d, e, mentioned);
    } else {
      OtherStepKeepsMoves(d, e);
      assert mentioned + [] == mentioned;
    }
  }

  lemma MoveStepIds(d: Digest, e: Event, mentioned: seq<string>)
    requires e.MoveUpdate? && Ids(d.moves) == FirstOccurrences(mentioned)
    ensures Ids(Step(d, e).moves) == FirstOccurrences(mentioned + [e.id])
  {
    var prev := FindMove(d.moves, e.id);
    UpdateIds(d.moves, Updated(if prev.Some? then prev.value else Blank(e.id), e), mentioned);
  }

  lemma OtherStepKeepsMoves(d: Digest, e: Event)
    requires !e.Plan? && !e.MoveUpdate?
    ensures Step(d, e).moves == d.moves
  {}

  /** Rows appear in the order in which the journal first names them, each id once. */
  lemma {:induction false} MovesKeepFirstAppearanceOrder(events: seq<Event>)
    ensures Ids(DigestOf(events).moves) == FirstOccurrences(Mentions(events))
    decreases |events|
  {
    if events != [] {
      var n := |events| - 1;
      MovesKeepFirstAppearanceOrder(events[..n]);
      StepIds(DigestOf(events[..n]), events[n], Mentions(events[..n]));
    }
  }

  lemma {:induction false} FirstOccurrencesMeaning(xs: seq<string>)
    ensures forall x :: x in FirstOccurrences(xs) <==> x in xs
    ensures forall j, k | 0 <= j < k < |FirstOccurrences(xs)| :: FirstOccurrences(xs)[j] != FirstOccurrences(xs)[k]
    ensures Subsequence(FirstOccurrences(xs), xs)
    decreases |xs|
  {
    if xs != [] {
      var before := xs[..|xs| - 1];
      var last := xs[|xs| - 1];
      FirstOccurrencesMeaning(before);
      SplitLast(xs);
      SubsequenceRefl([last]);
      SubsequenceConcat(FirstOccurrences(before), before, [last], [last]);
      SubsequenceConcat(FirstOccurrences(before), before, [], [last]);
      assert FirstOccurrences(before) + [] == FirstOccurrences(before);
    }
  }

  /** The last non-empty string of a sequence, or "". */
  function LastNonEmpty(xs: seq<string>): string {
    if xs == [] then "" else Or(xs[|xs| - 1], LastNonEmpty(xs[..|xs| - 1]))
  }

  /** What an event offers for a field of a move, given whether the move was mentioned before. */
  type Pick = (Event, bool) -> string

  // Only updates of the move offer these fields.

  function PickState(id: string): Pick {
    (e: Event, mentioned: bool) => if e.MoveUpdate? && e.id == id then e.state else ""
  }

  function PickModel(id: string): Pick {
    (e: Event, mentioned: bool) => if e.MoveUpdate? && e.id == id then e.model else ""
  }

  function PickClass(id: string): Pick {
    (e: Event, mentioned: bool) => if e.MoveUpdate? && e.id == id then e.taskClass else ""
  }

  function PickReason(id: string): Pick {
    (e: Event, mentioned: bool) => if e.MoveUpdate? && e.id == id then e.routeWhy else ""
  }

  // Updates and the first plan entry of a move not mentioned before offer these.

  function PickTitle(id: string): Pick {
    (e: Event, mentioned: bool) =>
      if e.MoveUpdate? && e.id == id then e.title
      else if e.Plan? && FindPlanned(e.planMoves, id).Some? && !mentioned then FindPlanned(e.planMoves, id).value.title
      else ""
  }

  function PickWhy(id: string): Pick {
    (e: Event, mentioned: bool) =>
      if e.MoveUpdate? && e.id == id then e.why
      else if e.Plan? && FindPlanned(e.planMoves, id).Some? && !mentioned then FindPlanned(e.planMoves, id).value.why
      else ""
  }

  /** Everything the journal offers for a field of move `id`, in order. */
  function Said(pick: Pick, events: seq<Event>, id: string): seq<string> {
    if events == [] then []
    else
      var before := events[..|events| - 1];
      Said(pick, before, id) + [pick(events[|events| - 1], id in Mentions(before))]
  }

  /** The last non-empty value the journal offers. */
  function LastSaid(pick: Pick, events: seq<Event>, id: string): string {
    LastNonEmpty(Said(pick, events, id))
  }

  lemma {:induction false} PresentIffMentioned(events: seq<Event>, id: string)
    ensures FindMove(DigestOf(events).moves, id).Some? <==> id in Mentions(events)
  {
    MovesKeepFirstAppearanceOrder(events);
    FirstOccurrencesMeaning(Mentions(events));
    SetMoveIds(DigestOf(events).moves, Blank(id));
  }

  lemma LastNonEmptySnoc(xs: seq<string>, x: string)
    ensures LastNonEmpty(xs + [x]) == Or(x, LastNonEmpty(xs))
  {
    assert (xs + [x])[..|xs|] == xs;
  }

  lemma SaidGrows(pick: Pick, events: seq<Event>, id: string)
    requires events != []
    ensures var n := |events| - 1;
            LastSaid(pick, events, id)
            == Or(pick(events[n], id in Mentions(events[..n])), LastSaid(pick, events[..n], id))
  {
    var n := |events| - 1;
    LastNonEmptySnoc(Said(pick, events[..n], id), pick(events[n], id in Mentions(events[..n])));
  }

  /** The row of `id` after one more event. */
  function RowAfter(before: Option<Move>, e: Event, id: string): Option<Move> {
    if e.MoveUpdate? && e.id == id then Some(Updated(if before.Some? then before.value else Blank(id), e))
    else if e.Plan? && before.None? && FindPlanned(e.planMoves, id).Some? then
      Some(Planned(FindPlanned(e.planMoves, id).value))
    else before
  }

  lemma StepMove(d: Digest, e: Event, id: string)
    ensures FindMove(Step(d, e).moves, id) == RowAfter(FindMove(d.moves, id), e, id)
  {
    match e {
      case Plan(title, ms) =>
        PlanOnlyAdds(d.moves, ms, id);
      case MoveUpdate(other, _, _, _, _, _, _, _, _) =>
        var prev := FindMove(d.moves, other);
        FindSetMove(d.moves, Updated(if prev.Some? then prev.value else Blank(other), e), id);
      case _ =>
    }
  }

  type Reader = Move -> string

  /** The field as it was, empty while there is no row. */
  function Held(m: Option<Move>, read: Reader): string { if m.Some? then read(m.value) else "" }

  /** Every event moves the field of the row to what it offers, if that is not empty. */
  ghost predicate Follows(read: Reader, pick: Pick, default: string, id: string) {
    forall before, e :: FollowsOnce(before, e, read, pick, default, id)
  }

  predicate FollowsOnce(before: Option<Move>, e: Event, read: Reader, pick: Pick, default: string, id: string) {
    var after := RowAfter(before, e, id);
    (before.Some? ==> Or(read(before.value), default) == read(before.value)) ==>
    if after.None? then pick(e, false) == ""
    else read(after.value) == Or(Or(pick(e, before.Some?), Held(before, read)), default)
  }

  /** Then the field is the last non-empty offer, or the default. */
  lemma {:induction false} FieldFollows(read: Reader, pick: Pick, default: string, events: seq<Event>, id: string)
    requires Follows(read, pick, default, id)
    ensures var m := FindMove(DigestOf(events).moves, id);
            if m.Some? then read(m.value) == Or(LastSaid(pick, events, id), default)
            else LastSaid(pick, events, id) == ""
    decreases |events|
  {
    if events != [] {
      var n := |events| - 1;
      FieldFollows(read, pick, default, events[..n], id);
      SaidGrows(pick, events, id);
      PresentIffMentioned(events[..n], id);
      StepMove(DigestOf(events[..n]), events[n], id);
      assert FollowsOnce(FindMove(DigestOf(events[..n]).moves, id), events[n], read, pick, default, id);
    }
  }

  function ShownState(m: Move): string { m.state }

  function ShownModel(m: Move): string { m.model }

  function ShownClass(m: Move): string { m.taskClass }

  function ShownReason(m: Move): string { m.reason }

  function ShownTitle(m: Move): string { m.title }

  function ShownWhy(m: Move): string { m.why }

  lemma StateFollows(id: string)
    ensures Follows(ShownState, PickState(id), "planned", id)
  {
    forall before: Option<Move>, e: Event
      ensures FollowsOnce(before, e, ShownState, PickState(id), "planned", id)
    {}
  }

  lemma ModelFollows(id: string)
    ensures Follows(ShownModel, PickModel(id), "", id)
  {
    forall before: Option<Move>, e: Event
      ensures FollowsOnce(before, e, ShownModel, PickModel(id), "", id)
    {}
  }

  lemma ClassFollows(id: string)
    ensures Follows(ShownClass, PickClass(id), "", id)
  {
    forall before: Option<Move>, e: Event
      ensures FollowsOnce(before, e, ShownClass, PickClass(id), "", id)
    {}
  }

  lemma ReasonFollows(id: string)
    ensures Follows(ShownReason, PickReason(id), "", id)
  {
    forall before: Option<Move>, e: Event
      ensures FollowsOnce(before, e, ShownReason, PickReason(id), "", id)
    {}
  }

  lemma TitleFollows(id: string)
    ensures Follows(ShownTitle, PickTitle(id), "", id)
  {
    forall before: Option<Move>, e: Event
      ensures FollowsOnce(before, e, ShownTitle, PickTitle(id), "", id)
    {}
  }

  lemma WhyFollows(id: string)
    ensures Follows(ShownWhy, PickWhy(id), "", id)
  {
    forall before: Option<Move>, e: Event
      ensures FollowsOnce(before, e, ShownWhy, PickWhy(id), "", id)
    {}
  }

  /**
   For every journal and every mentioned move: its state, model, class, reason, title and why are the
   last non-empty values the journal gives for them, and a state never given reads "planned".
   */
  lemma MoveShowsLastValues(events: seq<Event>, id: string)
    requires id in Mentions(events)
    ensures FindMove(DigestOf(events).moves, id).Some?
    ensures var m := FindMove(DigestOf(events).moves, id).value;
            && m.state == Or(LastSaid(PickState(id), events, id), "planned")
            && m.model == LastSaid(PickModel(id), events, id)
            && m.taskClass == LastSaid(PickClass(id), events, id)
            && m.reason == LastSaid(PickReason(id), events, id)
            && m.title == LastSaid(PickTitle(id), events, id)
            && m.why == LastSaid(PickWhy(id), events, id)
  {
    PresentIffMentioned(events, id);
    StateFollows(id);
    FieldFollows(ShownState, PickState(id), "planned", events, id);
    ModelFollows(id);
    FieldFollows(ShownModel, PickModel(id), "", events, id);
    ClassFollows(id);
    FieldFollows(ShownClass, PickClass(id), "", events, id);
    ReasonFollows(id);
    FieldFollows(ShownReason, PickReason(id), "", events, id);
    TitleFollows(id);
    FieldFollows(ShownTitle, PickTitle(id), "", events, id);
    WhyFollows(id);
    FieldFollows(ShownWhy, PickWhy(id), "", events, id);
  }

  lemma MentionedOffers(e: Event, id: string)
    requires id in MentionedBy(e)
    ensures (e.MoveUpdate? && e.id == id) || (e.Plan? && FindPlanned(e.planMoves, id).Some?)
  {
    if e.Plan? {
      FindPlannedMentions(e.planMoves, id);
    }
  }

  lemma {:induction false} FindPlannedMentions(ms: seq<PlanMove>, id: string)
    ensures FindPlanned(ms, id).Some? <==> exists k :: 0 <= k < |ms| && ms[k].id == id
    decreases |ms|
  {
    if ms != [] {
      FindPlannedMentions(ms[..|ms| - 1], id);
    }
  }

  /** Event `k` is the last update of this move. */
  predicate LastUpdate(events: seq<Event>, k: nat, id: string) {
    && k < |events| && events[k].MoveUpdate? && events[k].id == id
    && forall j | k < j < |events| :: !(events[j].MoveUpdate? && events[j].id == id)
  }

  /** The last file count that updates of this move give. */
  function CountSaid(events: seq<Event>, id: string): Option<int> {
    if events == [] then None
    else
      var e := events[|events| - 1];
      if e.MoveUpdate? && e.id == id && e.fileCount.Some? then e.fileCount else CountSaid(events[..|events| - 1], id)
  }

  lemma {:induction false} CountFromUpdates(events: seq<Event>, id: string)
    ensures var m := FindMove(DigestOf(events).moves, id);
            (if m.Some? then m.value.fileCount else None) == CountSaid(events, id)
    decreases |events|
  {
    if events != [] {
      var n := |events| - 1;
      CountFromUpdates(events[..n], id);
      StepMove(DigestOf(events[..n]), events[n], id);
    }
  }

  lemma MessageStays(before: Option<Move>, e: Event, id: string)
    requires before.Some? && !(e.MoveUpdate? && e.id == id)
    ensures RowAfter(before, e, id) == before
  {}

  lemma {:induction false} MessageFromLastUpdate(events: seq<Event>, k: nat, id: string)
    requires LastUpdate(events, k, id)
    ensures var m := FindMove(DigestOf(events).moves, id);
            m.Some? && m.value.message == events[k].message
    decreases |events|
  {
    var n := |events| - 1;
    StepMove(DigestOf(events[..n]), events[n], id);
    if k < n {
      MessageFromLastUpdate(events[..n], k, id);
      MessageStays(FindMove(DigestOf(events[..n]).moves, id), events[n], id);
    }
  }

  /** A row shows the message of its last update, even an empty one, and the last file count given. */
  lemma MoveFromLastUpdate(events: seq<Event>, k: nat, id: string)
    requires LastUpdate(events, k, id)
    ensures var m := FindMove(DigestOf(events).moves, id);
            m.Some? && m.value.message == events[k].message && m.value.fileCount == CountSaid(events, id)
  {
    CountFromUpdates(events, id);
    MessageFromLastUpdate(events, k, id);
  }

  /** Event `k` is the first to mention this move. */
  predicate FirstMention(events: seq<Event>, k: nat, id: string) {
    k < |events| && id in MentionedBy(events[k]) && id !in Mentions(events[..k])
  }

  lemma FilesStay(before: Option<Move>, e: Event, id: string)
    requires before.Some?
    ensures RowAfter(before, e, id).Some? && RowAfter(before, e, id).value.files == before.value.files
  {}

  /** The files of a row are those of the plan that first mentions it, and none if an update does. */
  lemma {:induction false} FilesFromFirstMention(events: seq<Event>, k: nat, id: string)
    requires FirstMention(events, k, id)
    ensures var m := FindMove(DigestOf(events).moves, id);
            && m.Some?
            && (events[k].Plan? ==> FindPlanned(events[k].planMoves, id).Some?)
            && m.value.files == if events[k].Plan? then FindPlanned(events[k].planMoves, id).value.files else []
    decreases |events|
  {
    var n := |events| - 1;
    if k < n {
      FirstMentionBefore(events, k, id);
      FilesFromFirstMention(events[..n], k, id);
      StepMove(DigestOf(events[..n]), events[n], id);
      FilesStay(FindMove(DigestOf(events[..n]).moves, id), events[n], id);
    } else {
      FilesAtFirst(events, id);
    }
  }

  lemma FirstMentionBefore(events: seq<Event>, k: nat, id: string)
    requires FirstMention(events, k, id) && k < |events| - 1
    ensures FirstMention(events[..|events| - 1], k, id)
  {
    assert events[..|events| - 1][..k] == events[..k];
  }

  lemma FilesAtFirst(events: seq<Event>, id: string)
    requires events != [] && FirstMention(events, |events| - 1, id)
    ensures var m, e := FindMove(DigestOf(events).moves, id), events[|events| - 1];
            && m.Some?
            && (e.Plan? ==> FindPlanned(e.planMoves, id).Some?)
            && m.value.files == if e.Plan? then FindPlanned(e.planMoves, id).value.files else []
  {
    var n := |events| - 1;
    PresentIffMentioned(events[..n], id);
    MentionedOffers(events[n], id);
    StepMove(DigestOf(events[..n]), events[n], id);
  }

  // the remaining fields

  predicate IsCheckRun(e: Event) { e.CheckRun? }

  predicate IsSnapshot(e: Event) { e.Snapshot? }

  function CreditsOf(e: Event): real { if e.Cost? then e.credits else 0.0 }

  function TotalCredits(events: seq<Event>): real {
    if events == [] then 0.0 else TotalCredits(events[..|events| - 1]) + CreditsOf(events[|events| - 1])
  }

  /** Event `k` is the last of the terminal events. */
  predicate LastTerminal(events: seq<Event>, k: nat) {
    k < |events| && events[k].Terminal? && forall j | k < j < |events| :: !events[j].Terminal?
  }

  lemma CollectStep(d: Digest, e: Event)
    ensures Step(d, e).runs == d.runs + Filter(IsCheckRun, [e])
    ensures Step(d, e).snapshots == d.snapshots + Filter(IsSnapshot, [e])
  {}

  /** Checks and snapshots are collected in order, each once. */
  lemma {:induction false} ChecksAndSnapshotsInOrder(events: seq<Event>)
    ensures DigestOf(events).runs == Filter(IsCheckRun, events)
    ensures DigestOf(events).snapshots == Filter(IsSnapshot, events)
    decreases |events|
  {
    if events != [] {
      var before, e := events[..|events| - 1], events[|events| - 1];
      ChecksAndSnapshotsInOrder(before);
      SplitLast(events);
      FilterConcat(IsCheckRun, before, [e]);
      FilterConcat(IsSnapshot, before, [e]);
      CollectStep(DigestOf(before), e);
    }
  }

  predicate Interrupts(e: Event) { e.Terminal? && e.code == "interrupted" }

  /** Credits add up, and an interruption anywhere is never forgotten. */
  lemma {:induction false} CreditsAndInterruption(events: seq<Event>)
    ensures DigestOf(events).costCredits == TotalCredits(events)
    ensures DigestOf(events).interrupted <==> exists k :: 0 <= k < |events| && Interrupts(events[k])
    decreases |events|
  {
    if events != [] {
      var before, e := events[..|events| - 1], events[|events| - 1];
      CreditsAndInterruption(before);
      StepTotals(DigestOf(before), e);
      assert forall k | 0 <= k < |before| :: events[k] == before[k];
    }
  }

  lemma StepTotals(d: Digest, e: Event)
    ensures Step(d, e).costCredits == d.costCredits + CreditsOf(e)
    ensures Step(d, e).interrupted == (d.interrupted || Interrupts(e))
  {}

  /** The outcome and its time are those of the last terminal event. */
  lemma {:induction false} OutcomeIsTheLast(events: seq<Event>, k: nat)
    requires LastTerminal(events, k)
    ensures DigestOf(events).outcome == Some(events[k].kind) && DigestOf(events).ended == events[k].at
    decreases |events|
  {
    if k < |events| - 1 {
      OutcomeIsTheLast(events[..|events| - 1], k);
    }
  }

  function TitleOffered(e: Event): string { if e.Plan? then e.planTitle else "" }

  function PlanTitles(events: seq<Event>): seq<string> {
    if events == [] then [] else PlanTitles(events[..|events| - 1]) + [TitleOffered(events[|events| - 1])]
  }

  /** The title is the last non-empty title of a plan. */
  lemma {:induction false} TitleIsTheLast(events: seq<Event>)
    ensures DigestOf(events).title == LastNonEmpty(PlanTitles(events))
    decreases |events|
  {
    if events != [] {
      var n := |events| - 1;
      TitleIsTheLast(events[..n]);
      LastNonEmptySnoc(PlanTitles(events[..n]), TitleOffered(events[n]));
      StepTitle(DigestOf(events[..n]), events[n]);
    }
  }

  lemma StepTitle(d: Digest, e: Event)
    ensures Step(d, e).title == Or(TitleOffered(e), d.title)
  {}

  /** Event `k` is the last job event. */
  predicate LastJob(events: seq<Event>, k: nat) {
    k < |events| && events[k].Job? && forall j | k < j < |events| :: !events[j].Job?
  }

  /** Start time and workspace are those of the last job event. */
  lemma {:induction false} StartIsTheLast(events: seq<Event>, k: nat)
    requires LastJob(events, k)
    ensures DigestOf(events).started == events[k].at && DigestOf(events).workspaceId == events[k].workspaceId
    decreases |events|
  {
    if k < |events| - 1 {
      StartIsTheLast(events[..|events| - 1], k);
    }
  }
}
