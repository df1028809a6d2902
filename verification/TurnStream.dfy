/**
 The resumable turn stream (`readSse`, `processEvent`, `attemptReattach` in public/app.js).
 Text arrives in arbitrary chunks; complete lines that start with "data:" carry one event each
 (a one-line subset of section 9.2.6, "Interpreting an event stream", of the WHATWG HTML Standard);
 `eventIndex` is the cursor from which a dropped turn is resumed.
 */
module TurnStream {
  import opened Sequences
  import opened Text

  datatype Event = Job(id: string) | Reset | Cursor(at: int) | Token(delta: string) | Other(kind: string)

  /** `JSON.parse` of a payload; None when it throws. */
  type Decoder = string -> Option<Event>

  datatype LiveJob = LiveJob(jobId: string, eventIndex: int)

  /** The state a turn accumulates: the answer so far and the resume cursor. */
  datatype Turn = Turn(raw: string, live: Option<LiveJob>)

  /** `n | 0`. */
  function ToInt32(n: int): int {
    var m := n % 0x1_0000_0000;
    if m < 0x8000_0000 then m else m - 0x1_0000_0000
  }

  function Handle(t: Turn, e: Event): Turn {
    match e
    case Job(id) => t.(live := Some(LiveJob(id, 0)))
    case Reset => t.(raw := "")
    case Cursor(at) => if t.live.Some? then t.(live := Some(t.live.value.(eventIndex := ToInt32(at)))) else t
    case Token(delta) => t.(raw := t.raw + delta)
    case Other(_) => t
  }

  function Dispatch(t: Turn, e: Event): Turn {
    var h := Handle(t, e);
    if h.live.Some? && h.live.value.jobId != "" && !e.Cursor? && !e.Reset?
    then h.(live := Some(h.live.value.(eventIndex := h.live.value.eventIndex + 1)))
    else h
  }

  function DispatchAll(t: Turn, es: seq<Event>): Turn {
    if es == [] then t else Dispatch(DispatchAll(t, es[..|es| - 1]), es[|es| - 1])
  }

  function EventOfLine(decode: Decoder, line: string): Option<Event> {
    var s := Trim(line);
    if "data:" <= s then decode(Trim(s[5..])) else None
  }

  /** A line carries at most one event. */
  function LineEvents(decode: Decoder): string -> seq<Event> {
    (line: string) => var e := EventOfLine(decode, line); if e.Some? then [e.value] else []
  }

  function EventsOf(decode: Decoder, lines: seq<string>): seq<Event> {
    FlatMap(LineEvents(decode), lines)
  }

  /** All but the last element of splitting at newlines, and that last element. */
  function CompleteLines(text: string): seq<string> {
    var parts := Split(text, '\n');
    parts[..|parts| - 1]
  }

  function Leftover(text: string): string {
    var parts := Split(text, '\n');
    parts[|parts| - 1]
  }

  /** The page's turn state and its handlers. */
  class TurnReader {
    var raw: string
    var liveJob: Option<LiveJob>

    function State(): Turn
      reads this
    {
      Turn(raw, liveJob)
    }

    /** A new turn: the run is registered before its job id is known. */
    constructor ()
      ensures State() == Turn("", Some(LiveJob("", 0)))
    {
      raw, liveJob := "", Some(LiveJob("", 0));
    }

    method ProcessEvent(e: Event)
      modifies this
      ensures State() == Handle(old(State()), e)
    {
      match e {
        case Job(id) =>
          liveJob := Some(LiveJob(id, 0));
        case Reset =>
          raw := "";
        case Cursor(at) =>
          if liveJob.Some? {
            liveJob := Some(liveJob.value.(eventIndex := ToInt32(at)));
          }
        case Token(delta) =>
          raw := raw + delta;
        case Other(_) =>
      }
    }

    /** One line: a data line that parses is dispatched and, unless it is framing, counted. */
    method ProcessLine(decode: Decoder, line: string)
      modifies this
      ensures var e := EventOfLine(decode, line);
              State() == if e.Some? then Dispatch(old(State()), e.value) else old(State())
    {
      var s := Trim(line);
      if !("data:" <= s) {
        return;
      }
      var ev := decode(Trim(s[5..]));
      if ev.None? {
        return;
      }
      ProcessEvent(ev.value);
      if liveJob.Some? && liveJob.value.jobId != "" && !ev.value.Cursor? && !ev.value.Reset? {
        liveJob := Some(liveJob.value.(eventIndex := liveJob.value.eventIndex + 1));
      }
    }

    method ProcessLines(decode: Decoder, lines: seq<string>)
      modifies this
      ensures State() == DispatchAll(old(State()), EventsOf(decode, lines))
    {
      for k := 0 to |lines|
        invariant State() == DispatchAll(old(State()), EventsOf(decode, lines[..k]))
      {
        assert lines[..k + 1][..k] == lines[..k];
        ghost var e := EventOfLine(decode, lines[k]);
        ghost var es := EventsOf(decode, lines[..k]);
        assert EventsOf(decode, lines[..k + 1]) == es + LineEvents(decode)(lines[k]);
        if e.Some? {
          DispatchSnoc(old(State()), es, e.value);
        } else {
          assert es + [] == es;
        }
        ProcessLine(decode, lines[k]);
      }
      assert lines[..|lines|] == lines;
    }

    /** Read a response to its end or to the point where it was cut. */
    method ReadSse(decode: Decoder, chunks: seq<string>) returns (buf: string)
      modifies this
      ensures buf == Leftover(Flatten(chunks))
      ensures State() == DispatchAll(old(State()), Received(decode, Flatten(chunks)))
    {
      buf := "";
      for i := 0 to |chunks|
        invariant buf == Leftover(Flatten(chunks[..i]))
        invariant State() == DispatchAll(old(State()), Received(decode, Flatten(chunks[..i])))
      {
        ReceivedGrows(decode, chunks, i, old(State()));
        buf := buf + chunks[i];
        var parts := Split(buf, '\n');
        var lines := parts[..|parts| - 1];
        assert lines == CompleteLines(buf);
        ProcessLines(decode, lines);
        buf := parts[|parts| - 1];
      }
      assert chunks[..|chunks|] == chunks;
    }

    /** The cursor a reattach asks for; without a kept session the turn is replayed from 0. */
    method PrepareReattach(keptSession: bool) returns (from: int)
      requires liveJob.Some?
      modifies this
      ensures State() == if keptSession then old(State()) else Restarted(old(State()))
      ensures from == liveJob.value.eventIndex
    {
      if !keptSession {
        raw := "";
        liveJob := Some(liveJob.value.(eventIndex := 0));
      }
      from := liveJob.value.eventIndex;
    }
  }

  function Restarted(t: Turn): Turn
    requires t.live.Some?
  {
    Turn("", Some(t.live.value.(eventIndex := 0)))
  }

  // ---- lines and chunks ----

  lemma AnotherChunk(chunks: seq<string>, chunk: string)
    ensures var text := Flatten(chunks);
            && CompleteLines(Flatten(chunks + [chunk])) == CompleteLines(text) + CompleteLines(Leftover(text) + chunk)
            && Leftover(Flatten(chunks + [chunk])) == Leftover(Leftover(text) + chunk)
  {
    FlattenSnoc(chunks, chunk);
    LinesConcat(Flatten(chunks), chunk);
  }

  /** One more chunk: the lines it completes are dispatched after everything received before. */
  lemma ReceivedGrows(decode: Decoder, chunks: seq<string>, i: nat, t: Turn)
    requires i < |chunks|
    ensures var text := Flatten(chunks[..i]);
            var after := Flatten(chunks[..i + 1]);
            var more := EventsOf(decode, CompleteLines(Leftover(text) + chunks[i]));
            && Leftover(after) == Leftover(Leftover(text) + chunks[i])
            && DispatchAll(t, Received(decode, after)) == DispatchAll(DispatchAll(t, Received(decode, text)), more)
  {
    PrefixSnoc(chunks, i);
    var text := Flatten(chunks[..i]);
    var lines := CompleteLines(Leftover(text) + chunks[i]);
    AnotherChunk(chunks[..i], chunks[i]);
    FlatMapConcat(LineEvents(decode), CompleteLines(text), lines);
    DispatchConcat(t, Received(decode, text), EventsOf(decode, lines));
  }

  lemma LinesConcat(a: string, b: string)
    ensures CompleteLines(a + b) == CompleteLines(a) + CompleteLines(Leftover(a) + b)
    ensures Leftover(a + b) == Leftover(Leftover(a) + b)
  {
    var before := Split(a, '\n');
    SplitConcat(a, b, '\n', before);
    PartsConcat(before[..|before| - 1], Split(before[|before| - 1] + b, '\n'));
  }

  lemma PartsConcat(init: seq<string>, rest: seq<string>)
    requires rest != []
    ensures var parts := init + rest;
            parts[..|parts| - 1] == init + rest[..|rest| - 1] && parts[|parts| - 1] == rest[|rest| - 1]
  {}

  /** The line buffer of the reader, fed chunk by chunk. */
  function FeedAll(chunks: seq<string>): (seq<string>, string) {
    if chunks == [] then ([], "")
    else
      var (lines, buf) := FeedAll(chunks[..|chunks| - 1]);
      var parts := Split(buf + chunks[|chunks| - 1], '\n');
      (lines + parts[..|parts| - 1], parts[|parts| - 1])
  }

  /** However a text is cut into chunks, the same lines are processed and the same rest is kept. */
  lemma {:induction false} ChunkingIndependence(chunks: seq<string>)
    ensures FeedAll(chunks) == (CompleteLines(Flatten(chunks)), Leftover(Flatten(chunks)))
    decreases |chunks|
  {
    if chunks != [] {
      var before := chunks[..|chunks| - 1];
      ChunkingIndependence(before);
      AnotherChunk(before, chunks[|chunks| - 1]);
      SplitLast(chunks);
    }
  }

  lemma DispatchSnoc(t: Turn, es: seq<Event>, e: Event)
    ensures DispatchAll(t, es + [e]) == Dispatch(DispatchAll(t, es), e)
  {
    assert (es + [e])[..|es|] == es;
  }

  lemma {:induction false} DispatchConcat(t: Turn, a: seq<Event>, b: seq<Event>)
    ensures DispatchAll(t, a + b) == DispatchAll(DispatchAll(t, a), b)
    decreases |b|
  {
    if b == [] {
      assert a + b == a;
    } else {
      DispatchConcat(t, a, b[..|b| - 1]);
      assert (a + b)[..|a + b| - 1] == a + b[..|b| - 1];
    }
  }

  /** Lines as the server writes them. */
  function Wire(lines: seq<string>): string {
    if lines == [] then "" else lines[0] + "\n" + Wire(lines[1..])
  }

  lemma {:induction false} WireLines(lines: seq<string>)
    requires forall l | l in lines :: '\n' !in l
    ensures CompleteLines(Wire(lines)) == lines
    decreases |lines|
  {
    if lines != [] {
      WireLines(lines[1..]);
      SplitAt(lines[0], Wire(lines[1..]), '\n');
      assert Wire(lines) == lines[0] + (['\n'] + Wire(lines[1..]));
    }
  }

  function Received(decode: Decoder, text: string): seq<Event> {
    EventsOf(decode, CompleteLines(text))
  }

  /** A response cut anywhere, even inside a line, delivers a prefix of its events. */
  lemma CutDeliversPrefix(decode: Decoder, lines: seq<string>, text: string)
    requires (forall l | l in lines :: '\n' !in l) && text <= Wire(lines)
    ensures Received(decode, text) <= EventsOf(decode, lines)
  {
    WireLines(lines);
    LinesConcat(text, Wire(lines)[|text|..]);
    assert text + Wire(lines)[|text|..] == Wire(lines);
    FlatMapConcat(LineEvents(decode), CompleteLines(text), CompleteLines(Leftover(text) + Wire(lines)[|text|..]));
  }

  // ---- exactly-once tokens ----

  function Tokens(es: seq<Event>): string {
    if es == [] then ""
    else Tokens(es[..|es| - 1]) + if es[|es| - 1].Token? then es[|es| - 1].delta else ""
  }

  lemma {:induction false} TokensConcat(a: seq<Event>, b: seq<Event>)
    ensures Tokens(a + b) == Tokens(a) + Tokens(b)
    decreases |b|
  {
    if b == [] {
      assert a + b == a;
    } else {
      TokensConcat(a, b[..|b| - 1]);
      assert (a + b)[..|a + b| - 1] == a + b[..|b| - 1];
    }
  }

  predicate Framing(e: Event) { e.Reset? || e.Cursor? }

  /** The server's job log: the job event first, then recorded events only. */
  predicate IsLog(log: seq<Event>) {
    && log != [] && log[0].Job? && log[0].id != ""
    && forall k | 1 <= k < |log| :: !Framing(log[k]) && !log[k].Job?
  }

  /**
   What an attach may answer: the tail of the log, or a compacted replay, which may open with a
   `reset`, sends recorded events with runs of tokens joined, then the authoritative cursor, and
   then the tail from there.
   */
  datatype Reply = Tail(upTo: nat) | Compact(reset: bool, replay: seq<Event>, at: nat, upTo: nat)

  predicate ReplayEvents(replay: seq<Event>) {
    forall k | 0 <= k < |replay| :: !Framing(replay[k]) && (replay[k].Job? ==> replay[k].id != "")
  }

  /** The text a compacted replay continues: none after a `reset`, otherwise what lies below the cursor. */
  function Base(log: seq<Event>, from: nat, reset: bool): string
    requires from <= |log|
  {
    if reset then "" else Tokens(log[..from])
  }

  predicate LegalReply(log: seq<Event>, from: int, r: Reply) {
    match r
    case Tail(upTo) => 0 <= from <= upTo <= |log|
    case Compact(reset, replay, at, upTo) =>
      && at <= upTo <= |log| && at < 0x8000_0000 && ReplayEvents(replay)
      && (reset || 0 <= from <= |log|)
      && Base(log, if reset then 0 else from, reset) + Tokens(replay) == Tokens(log[..at])
  }

  /** The replayed part of a compacted reply. */
  function Opening(reset: bool): seq<Event> { if reset then [Reset] else [] }

  function Sent(log: seq<Event>, from: int, r: Reply): seq<Event>
    requires LegalReply(log, from, r)
  {
    match r
    case Tail(upTo) => log[from..upTo]
    case Compact(reset, replay, at, upTo) => Opening(reset) + replay + [Cursor(at)] + log[at..upTo]
  }

  /** The answer on screen is exactly the tokens below the cursor. */
  predicate Synced(t: Turn, log: seq<Event>) {
    && t.live.Some?
    && var index := t.live.value.eventIndex;
    && 0 <= index <= |log| && (t.live.value.jobId == "" ==> index == 0)
    && t.raw == Tokens(log[..index])
  }

  lemma NextEntryStaysSynced(t: Turn, log: seq<Event>)
    requires IsLog(log) && Synced(t, log) && t.live.value.eventIndex < |log|
    ensures var r := Dispatch(t, log[t.live.value.eventIndex]);
            Synced(r, log) && r.live.value.eventIndex == t.live.value.eventIndex + 1
  {
    var k := t.live.value.eventIndex;
    assert log[..k + 1][..k] == log[..k];
  }

  lemma {:induction false} TailStaysSynced(t: Turn, log: seq<Event>, upTo: nat)
    requires IsLog(log) && Synced(t, log) && t.live.value.eventIndex <= upTo <= |log|
    ensures var r := DispatchAll(t, log[t.live.value.eventIndex..upTo]);
            Synced(r, log) && r.live.value.eventIndex == upTo
    decreases upTo
  {
    var from := t.live.value.eventIndex;
    if from < upTo {
      TailStaysSynced(t, log, upTo - 1);
      assert log[from..upTo] == log[from..upTo - 1] + [log[upTo - 1]];
      DispatchSnoc(t, log[from..upTo - 1], log[upTo - 1]);
      NextEntryStaysSynced(DispatchAll(t, log[from..upTo - 1]), log);
    }
  }

  /** The resume cursor after replayed events: a job event restarts it, every event advances it. */
  function CursorAfter(index: int, es: seq<Event>): int {
    if es == [] then index else if es[|es| - 1].Job? then 1 else CursorAfter(index, es[..|es| - 1]) + 1
  }

  /** Counted from the last job event, or from the old cursor when there is none. */
  lemma {:induction false} CursorCountsFromLastJob(index: int, es: seq<Event>, q: int)
    requires -1 <= q < |es| && (q >= 0 ==> es[q].Job?) && forall k | q < k < |es| :: !es[k].Job?
    ensures CursorAfter(index, es) == if q >= 0 then |es| - q else index + |es|
    decreases |es|
  {
    if q < |es| - 1 {
      CursorCountsFromLastJob(index, es[..|es| - 1], q);
    }
  }

  /** A replay rebuilds its own tokens, never loses the job, and counts from its last job event. */
  lemma {:induction false} ReplayAccumulates(t: Turn, replay: seq<Event>)
    requires t.live.Some? && t.live.value.jobId != "" && ReplayEvents(replay)
    ensures var r := DispatchAll(t, replay);
            && r.raw == t.raw + Tokens(replay) && r.live.Some? && r.live.value.jobId != ""
            && r.live.value.eventIndex == CursorAfter(t.live.value.eventIndex, replay)
    decreases |replay|
  {
    if replay != [] {
      ReplayAccumulates(t, replay[..|replay| - 1]);
    }
  }

  /** A turn after the opening of a compacted reply and any of its replayed events. */
  lemma Replayed(t: Turn, reset: bool, replayed: seq<Event>)
    requires t.live.Some? && t.live.value.jobId != "" && ReplayEvents(replayed)
    ensures var r := DispatchAll(t, Opening(reset) + replayed);
            && r.raw == (if reset then "" else t.raw) + Tokens(replayed) && r.live.Some?
            && r.live.value.jobId != "" && r.live.value.eventIndex == CursorAfter(t.live.value.eventIndex, replayed)
  {
    if reset {
      ResetThen(t, replayed);
      ReplayAccumulates(t.(raw := ""), replayed);
    } else {
      assert [] + replayed == replayed;
      ReplayAccumulates(t, replayed);
    }
  }

  /** A complete block leaves text and cursor in step at the cursor it names. */
  lemma BlockSyncs(t: Turn, log: seq<Event>, reset: bool, replay: seq<Event>, at: nat)
    requires IsLog(log) && t.live.Some? && t.live.value.jobId != "" && ReplayEvents(replay)
    requires at <= |log| && at < 0x8000_0000 && (if reset then "" else t.raw) + Tokens(replay) == Tokens(log[..at])
    ensures var r := DispatchAll(t, Opening(reset) + replay + [Cursor(at)]);
            Synced(r, log) && r.live.value.eventIndex == at && r.live.value.jobId != ""
  {
    Replayed(t, reset, replay);
    DispatchSnoc(t, Opening(reset) + replay, Cursor(at));
    CursorSyncs(DispatchAll(t, Opening(reset) + replay), log, at);
  }

  /** The uncut rebuild: whatever was on screen before, the block replaces it. */
  lemma RebuildSyncs(t: Turn, log: seq<Event>, replay: seq<Event>, at: nat)
    requires IsLog(log) && t.live.Some? && t.live.value.jobId != "" && ReplayEvents(replay)
    requires at <= |log| && at < 0x8000_0000 && Tokens(replay) == Tokens(log[..at])
    ensures var r := DispatchAll(t, [Reset] + replay + [Cursor(at)]);
            Synced(r, log) && r.live.value.eventIndex == at && r.live.value.jobId != ""
  {
    assert "" + Tokens(replay) == Tokens(replay);
    BlockSyncs(t, log, true, replay, at);
  }

  lemma CursorSyncs(t: Turn, log: seq<Event>, at: nat)
    requires t.live.Some? && t.live.value.jobId != "" && at <= |log| && at < 0x8000_0000 && t.raw == Tokens(log[..at])
    ensures var r := Dispatch(t, Cursor(at));
            Synced(r, log) && r.live.value.eventIndex == at && r.live.value.jobId != ""
  {}

  /**
   After these replayed events the text is the log's text up to the cursor they led to, counted on
   from `index` and on top of what the reply leaves on screen.
   */
  predicate SafeCut(log: seq<Event>, index: int, reset: bool, replayed: seq<Event>) {
    var n := CursorAfter(index, replayed);
    && 0 <= n <= |log| && (reset || 0 <= index <= |log|)
    && Base(log, if reset then 0 else index, reset) + Tokens(replayed) == Tokens(log[..n])
  }

  /** Cutting a reply after `n` events is safe, or does not fall between its opening and its cursor. */
  predicate CutIsSafe(log: seq<Event>, index: int, r: Reply, n: nat) {
    r.Compact? ==>
      var j := n - |Opening(r.reset)|;
      0 <= j <= |r.replay| ==> SafeCut(log, index, r.reset, r.replay[..j])
  }

  /**
   What matters of a reply is only the prefix of its events that arrived: text and cursor stay in
   step exactly when the cut is safe.
   */
  lemma PrefixSyncsExactly(t: Turn, log: seq<Event>, r: Reply, got: seq<Event>)
    requires IsLog(log) && Synced(t, log) && LegalReply(log, t.live.value.eventIndex, r)
    requires t.live.value.jobId == "" ==> r.Tail?
    requires got <= Sent(log, t.live.value.eventIndex, r)
    ensures Synced(DispatchAll(t, got), log) <==> CutIsSafe(log, t.live.value.eventIndex, r, |got|)
  {
    if r.Tail? {
      TailPrefixSyncs(t, log, r.upTo, got);
    } else if |got| > |Opening(r.reset)| + |r.replay| {
      BlockPrefixSyncs(t, log, r, got);
    } else if |got| >= |Opening(r.reset)| {
      BlockPrefix(r.reset, r.replay, [Cursor(r.at)], log[r.at..r.upTo], got);
      CutPrefixExactly(t, log, r, got);
    } else {
      assert got == [];
    }
  }

  lemma CutPrefixExactly(t: Turn, log: seq<Event>, r: Reply, got: seq<Event>)
    requires Synced(t, log) && t.live.value.jobId != "" && r.Compact? && ReplayEvents(r.replay)
    requires |Opening(r.reset)| <= |got| <= |Opening(r.reset)| + |r.replay|
    requires got == Opening(r.reset) + r.replay[..|got| - |Opening(r.reset)|]
    ensures Synced(DispatchAll(t, got), log) <==> CutIsSafe(log, t.live.value.eventIndex, r, |got|)
  {
    CutReplayExactly(t, log, r.reset, r.replay[..|got| - |Opening(r.reset)|]);
    CutIsSafeInside(log, t.live.value.eventIndex, r, |got|);
  }

  lemma CutIsSafeInside(log: seq<Event>, index: int, r: Reply, n: nat)
    requires r.Compact? && |Opening(r.reset)| <= n <= |Opening(r.reset)| + |r.replay|
    ensures CutIsSafe(log, index, r, n) <==> SafeCut(log, index, r.reset, r.replay[..n - |Opening(r.reset)|])
  {}

  lemma BlockPrefix(reset: bool, replay: seq<Event>, cursor: seq<Event>, rest: seq<Event>, got: seq<Event>)
    requires |Opening(reset)| <= |got| <= |Opening(reset)| + |replay|
    requires got <= Opening(reset) + replay + cursor + rest
    ensures got == Opening(reset) + replay[..|got| - |Opening(reset)|]
  {}

  lemma TailPrefixSyncs(t: Turn, log: seq<Event>, upTo: nat, got: seq<Event>)
    requires IsLog(log) && Synced(t, log) && t.live.value.eventIndex <= upTo <= |log|
    requires got <= log[t.live.value.eventIndex..upTo]
    ensures Synced(DispatchAll(t, got), log)
  {
    var from := t.live.value.eventIndex;
    assert got == log[from..from + |got|];
    TailStaysSynced(t, log, from + |got|);
  }

  lemma BlockPrefixSyncs(t: Turn, log: seq<Event>, r: Reply, got: seq<Event>)
    requires IsLog(log) && Synced(t, log) && t.live.value.jobId != ""
    requires r.Compact? && LegalReply(log, t.live.value.eventIndex, r)
    requires |Opening(r.reset)| + |r.replay| < |got|
    requires got <= Opening(r.reset) + r.replay + [Cursor(r.at)] + log[r.at..r.upTo]
    ensures Synced(DispatchAll(t, got), log)
  {
    var block := Opening(r.reset) + r.replay + [Cursor(r.at)];
    var n := r.at + |got| - |block|;
    assert got == block + log[r.at..n];
    DispatchConcat(t, block, log[r.at..n]);
    BlockSyncs(t, log, r.reset, r.replay, r.at);
    TailStaysSynced(DispatchAll(t, block), log, n);
  }

  // ---- a compacted reply that is cut before its cursor ----

  lemma ResetThen(t: Turn, es: seq<Event>)
    ensures DispatchAll(t, [Reset] + es) == DispatchAll(t.(raw := ""), es)
  {
    DispatchSnoc(t, [], Reset);
    assert [] + [Reset] == [Reset];
    DispatchConcat(t, [Reset], es);
  }

  /**
   A compacted reply that is cut before its cursor event, with or without a `reset` and however
   compacted: a turn in step stays in step exactly when the cut is safe.
   */
  lemma CutReplayExactly(t: Turn, log: seq<Event>, reset: bool, replayed: seq<Event>)
    requires t.live.Some? && t.live.value.jobId != "" && ReplayEvents(replayed) && (reset || Synced(t, log))
    ensures Synced(DispatchAll(t, Opening(reset) + replayed), log)
            <==> SafeCut(log, t.live.value.eventIndex, reset, replayed)
  {
    Replayed(t, reset, replayed);
  }

  /** With a `reset` the state before does not matter at all. */
  lemma CutRebuildExactly(t: Turn, log: seq<Event>, replayed: seq<Event>)
    requires t.live.Some? && t.live.value.jobId != "" && ReplayEvents(replayed)
    ensures Synced(DispatchAll(t, [Reset] + replayed), log)
            <==> var n := CursorAfter(t.live.value.eventIndex, replayed);
                 0 <= n <= |log| && Tokens(replayed) == Tokens(log[..n])
  {
    CutReplayExactly(t, log, true, replayed);
    assert "" + Tokens(replayed) == Tokens(replayed);
  }

  /**
   A verbatim replay that starts at the job event rewinds the cursor itself, so a cut after j of
   its events is safe exactly when j > 0 or nothing had been shown yet.
   */
  lemma CutRebuildWithJobExactly(t: Turn, log: seq<Event>, j: nat)
    requires IsLog(log) && Synced(t, log) && t.live.value.jobId != "" && j <= |log|
    ensures Synced(DispatchAll(t, [Reset] + log[..j]), log)
            <==> j > 0 || Tokens(log[..t.live.value.eventIndex]) == ""
  {
    ResetThen(t, log[..j]);
    if j > 0 {
      ReplayFromJob(t.(raw := ""), log, j);
    } else {
      assert log[..0] == [];
    }
  }

  lemma ReplayFromJob(t: Turn, log: seq<Event>, j: nat)
    requires IsLog(log) && t.raw == "" && 0 < j <= |log|
    ensures Synced(DispatchAll(t, log[..j]), log)
  {
    assert log[..j] == [log[0]] + log[1..j];
    DispatchConcat(t, [log[0]], log[1..j]);
    var first := DispatchAll(t, [log[0]]);
    JobFirst(t, log);
    TailStaysSynced(first, log, j);
  }

  lemma JobFirst(t: Turn, log: seq<Event>)
    requires IsLog(log) && t.raw == ""
    ensures var first := DispatchAll(t, [log[0]]); Synced(first, log) && first.live.value.eventIndex == 1
  {
    DispatchSnoc(t, [], log[0]);
    assert [] + [log[0]] == [log[0]];
    assert log[..1][..0] == [];
  }

  lemma {:induction false} RecordedEventsCount(t: Turn, es: seq<Event>)
    requires t.live.Some? && t.live.value.jobId != ""
    requires forall k | 0 <= k < |es| :: !Framing(es[k]) && !es[k].Job?
    ensures var r := DispatchAll(t, es);
            && r.live == Some(t.live.value.(eventIndex := t.live.value.eventIndex + |es|))
            && r.raw == t.raw + Tokens(es)
    decreases |es|
  {
    if es != [] {
      RecordedEventsCount(t, es[..|es| - 1]);
    }
  }

  /**
   A verbatim replay without the job event keeps counting from the old cursor: a cut after j of
   its events is safe exactly when the log entries the cursor skipped carry no text.
   */
  lemma CutRebuildWithoutJobExactly(t: Turn, log: seq<Event>, j: nat)
    requires IsLog(log) && Synced(t, log) && t.live.value.jobId != "" && 1 <= t.live.value.eventIndex && j < |log|
    ensures var from := t.live.value.eventIndex;
            Synced(DispatchAll(t, [Reset] + log[1..1 + j]), log)
            <==> from + j <= |log| && Tokens(log[1 + j..from + j]) == ""
  {
    CountedReplay(t, log, j);
    SyncedExactly(DispatchAll(t, [Reset] + log[1..1 + j]), log, 1 + j, t.live.value.eventIndex + j);
  }

  lemma CountedReplay(t: Turn, log: seq<Event>, j: nat)
    requires IsLog(log) && t.live.Some? && t.live.value.jobId != "" && j < |log|
    ensures var r := DispatchAll(t, [Reset] + log[1..1 + j]);
            && r.raw == Tokens(log[..1 + j])
            && r.live == Some(t.live.value.(eventIndex := t.live.value.eventIndex + j))
  {
    var es := log[1..1 + j];
    ResetThen(t, es);
    RecordedEventsCount(t.(raw := ""), es);
    TokensFromOne(log, 1 + j);
    assert "" + Tokens(es) == Tokens(es);
  }

  /** A turn that shows the tokens up to `k` but counts up to `index`. */
  lemma SyncedExactly(r: Turn, log: seq<Event>, k: nat, index: nat)
    requires r.live.Some? && r.live.value.jobId != "" && r.live.value.eventIndex == index
    requires k <= index && k <= |log| && r.raw == Tokens(log[..k])
    ensures Synced(r, log) <==> index <= |log| && Tokens(log[k..index]) == ""
  {
    if index <= |log| {
      TokensBetween(log, k, index);
      AppendsNothing(Tokens(log[..k]), Tokens(log[k..index]));
    }
  }

  lemma AppendsNothing(a: string, b: string)
    ensures a + b == a <==> b == ""
  {
    assert |a + b| == |a| + |b|;
  }

  /** The job event carries no text. */
  lemma TokensFromOne(log: seq<Event>, k: nat)
    requires IsLog(log) && 1 <= k <= |log|
    ensures Tokens(log[..k]) == Tokens(log[1..k])
  {
    assert log[..k] == log[..1] + log[1..k];
    TokensConcat(log[..1], log[1..k]);
    assert log[..1][..0] == [];
    assert "" + Tokens(log[1..k]) == Tokens(log[1..k]);
  }

  lemma TokensBetween(log: seq<Event>, lo: nat, hi: nat)
    requires lo <= hi <= |log|
    ensures Tokens(log[..hi]) == Tokens(log[..lo]) + Tokens(log[lo..hi])
  {
    assert log[..hi] == log[..lo] + log[lo..hi];
    TokensConcat(log[..lo], log[lo..hi]);
  }

  /** The cursor is adopted unchanged exactly when it fits in 32 signed bits. */
  lemma CursorAdoptedExactly(at: int)
    ensures ToInt32(at) == at <==> -0x8000_0000 <= at < 0x8000_0000
  {}
}
