/**
 What the server answers to an attach: stored rows in which runs of tokens are joined, and the three
 modes of `handleChatAttach` (chatjobs.mjs, server.mjs). The module shows that these answers meet
 what the turn stream assumes of a reply.
 */
module AttachServer {
  import opened Sequences
  import opened TurnStream

  /** A stored row covers `span` recorded events from `seq` on. */
  datatype Row = Row(at: nat, span: nat, ev: Event)

  /** Heartbeats are counted but never stored. */
  predicate Working(e: Event) { e == Other("working") }

  // ---- joining a batch ----

  function Close(run: Option<Row>): seq<Row> { if run.Some? then [run.value] else [] }

  /** The closed rows and the open run of tokens. */
  datatype Batch = Batch(rows: seq<Row>, run: Option<Row>)

  /** An open run is extended by a token and closed by anything else; heartbeats leave no row. */
  function Take(b: Batch, e: Event, at: nat): Batch {
    if e.Token? then Batch(b.rows, Some(if b.run.Some? then Joined(b.run.value, e.delta) else Row(at, 1, e)))
    else if Working(e) then Batch(b.rows + Close(b.run), None)
    else Batch(b.rows + Close(b.run) + [Row(at, 1, e)], None)
  }

  function Joined(run: Row, delta: string): Row {
    Row(run.at, run.span + 1, Token((if run.ev.Token? then run.ev.delta else "") + delta))
  }

  function BatchState(events: seq<Event>, start: nat, k: nat): Batch
    requires k <= |events|
  {
    if k == 0 then Batch([], None) else Take(BatchState(events, start, k - 1), events[k - 1], start + k - 1)
  }

  function Coalesce(events: seq<Event>, start: nat): seq<Row> {
    var b := BatchState(events, start, |events|);
    b.rows + Close(b.run)
  }

  /** The loop over a batch: an open run of tokens is extended or closed. */
  method CoalesceEvents(events: seq<Event>, start: nat) returns (rows: seq<Row>)
    ensures rows == Coalesce(events, start)
  {
    rows := [];
    var at := start;
    var run: Option<Row> := None;
    for k := 0 to |events|
      invariant at == start + k && Batch(rows, run) == BatchState(events, start, k)
      invariant run.Some? ==> run.value.ev.Token?
    {
      var e := events[k];
      if e.Token? {
        run := Some(if run.Some? then Row(run.value.at, run.value.span + 1, Token(run.value.ev.delta + e.delta))
                    else Row(at, 1, e));
      } else {
        rows := rows + Close(run);
        run := None;
        if !Working(e) {
          rows := rows + [Row(at, 1, e)];
        }
      }
      at := at + 1;
    }
    rows := rows + Close(run);
  }

  // ---- what rows cover ----

  predicate Silent(log: seq<Event>, lo: nat, hi: nat) {
    lo <= hi <= |log| && forall k | lo <= k < hi :: Working(log[k])
  }

  function Delta(e: Event): string { if e.Token? then e.delta else "" }

  /** The text of the events from `lo` to `hi`. */
  function Text(log: seq<Event>, lo: nat, hi: nat): string
    requires hi <= |log|
  {
    if hi <= lo then "" else Text(log, lo, hi - 1) + Delta(log[hi - 1])
  }

  /** The row stands for exactly the events it spans. */
  predicate Describes(r: Row, log: seq<Event>) {
    && r.span > 0 && r.at + r.span <= |log|
    && if r.ev.Token? then
         (forall k | r.at <= k < r.at + r.span :: log[k].Token?)
         && r.ev.delta == Text(log, r.at, r.at + r.span)
       else r.span == 1 && r.ev == log[r.at]
  }

  /** Rows in order that leave out only heartbeats between `lo` and `hi`. */
  predicate Covers(rows: seq<Row>, log: seq<Event>, lo: nat, hi: nat) {
    if rows == [] then Silent(log, lo, hi)
    else
      var r := rows[|rows| - 1];
      && Describes(r, log) && Silent(log, r.at + r.span, hi)
      && Covers(rows[..|rows| - 1], log, lo, r.at)
  }

  lemma {:induction false} CoversBounds(rows: seq<Row>, log: seq<Event>, lo: nat, hi: nat)
    requires Covers(rows, log, lo, hi)
    ensures lo <= hi <= |log| && forall r | r in rows :: lo <= r.at && r.at + r.span <= hi && Describes(r, log)
    decreases |rows|
  {
    if rows != [] {
      CoversBounds(rows[..|rows| - 1], log, lo, rows[|rows| - 1].at);
      SplitLast(rows);
    }
  }

  lemma CoversSnoc(rows: seq<Row>, r: Row, log: seq<Event>, lo: nat, hi: nat)
    requires Covers(rows, log, lo, r.at) && Describes(r, log) && Silent(log, r.at + r.span, hi)
    ensures Covers(rows + [r], log, lo, hi)
  {
    assert (rows + [r])[..|rows|] == rows;
  }

  lemma CoversSilence(rows: seq<Row>, log: seq<Event>, lo: nat, mid: nat, hi: nat)
    requires Covers(rows, log, lo, mid) && Silent(log, mid, hi)
    ensures Covers(rows, log, lo, hi)
  {}

  /** A batch appended to the stored rows extends what they cover. */
  lemma {:induction false} CoversAppend(a: seq<Row>, b: seq<Row>, log: seq<Event>, lo: nat, mid: nat, hi: nat)
    requires Covers(a, log, lo, mid) && Covers(b, log, mid, hi)
    ensures Covers(a + b, log, lo, hi)
    decreases |b|
  {
    if b == [] {
      assert a + b == a;
      CoversSilence(a, log, lo, mid, hi);
    } else {
      var init, r := b[..|b| - 1], b[|b| - 1];
      CoversAppend(a, init, log, lo, mid, r.at);
      CoversSnoc(a + init, r, log, lo, hi);
      SplitLast(b);
      assert a + b == a + init + [r];
    }
  }

  /** What the rows say. */
  function Said(rows: seq<Row>): string {
    if rows == [] then "" else Said(rows[..|rows| - 1]) + Delta(rows[|rows| - 1].ev)
  }

  lemma {:induction false} TextSplit(log: seq<Event>, lo: nat, mid: nat, hi: nat)
    requires lo <= mid <= hi <= |log|
    ensures Text(log, lo, hi) == Text(log, lo, mid) + Text(log, mid, hi)
    decreases hi - mid
  {
    if mid < hi {
      TextSplit(log, lo, mid, hi - 1);
    }
  }

  lemma {:induction false} SilentText(log: seq<Event>, lo: nat, hi: nat)
    requires Silent(log, lo, hi)
    ensures Text(log, lo, hi) == ""
    decreases hi
  {
    if lo < hi {
      SilentText(log, lo, hi - 1);
    }
  }

  lemma RowText(r: Row, log: seq<Event>)
    requires Describes(r, log)
    ensures Text(log, r.at, r.at + r.span) == Delta(r.ev)
  {
    if !r.ev.Token? {
      assert Text(log, r.at, r.at) == "";
    }
  }

  /** Nothing of the text is lost: the rows carry exactly the text of what they cover. */
  lemma {:induction false} CoversSay(rows: seq<Row>, log: seq<Event>, lo: nat, hi: nat)
    requires Covers(rows, log, lo, hi)
    ensures lo <= hi <= |log| && Said(rows) == Text(log, lo, hi)
    decreases |rows|
  {
    CoversBounds(rows, log, lo, hi);
    if rows == [] {
      SilentText(log, lo, hi);
    } else {
      var r := rows[|rows| - 1];
      assert r in rows;
      CoversSay(rows[..|rows| - 1], log, lo, r.at);
      RowSays(r, log, lo, hi);
    }
  }

  lemma RowSays(r: Row, log: seq<Event>, lo: nat, hi: nat)
    requires lo <= r.at && Describes(r, log) && Silent(log, r.at + r.span, hi)
    ensures Text(log, lo, hi) == Text(log, lo, r.at) + Delta(r.ev)
  {
    var past := r.at + r.span;
    RowText(r, log);
    SilentText(log, past, hi);
    TextSplit(log, lo, past, hi);
    TextSplit(log, lo, r.at, past);
    assert Text(log, lo, past) + "" == Text(log, lo, past);
  }

  /** The events of the rows, as they are written to the stream. */
  function Replayable(rows: seq<Row>): (r: seq<Event>)
    ensures |r| == |rows| && forall k | 0 <= k < |r| :: r[k] == rows[k].ev
  {
    seq(|rows|, k requires 0 <= k < |rows| => rows[k].ev)
  }

  lemma {:induction false} SaidIsTokens(rows: seq<Row>)
    ensures Tokens(Replayable(rows)) == Said(rows)
    decreases |rows|
  {
    if rows != [] {
      var init := rows[..|rows| - 1];
      SaidIsTokens(init);
      assert Replayable(rows)[..|init|] == Replayable(init);
    }
  }

  lemma {:induction false} TextIsTokens(log: seq<Event>, lo: nat, hi: nat)
    requires lo <= hi <= |log|
    ensures Tokens(log[lo..hi]) == Text(log, lo, hi)
    decreases hi
  {
    if lo < hi {
      TextIsTokens(log, lo, hi - 1);
      assert log[lo..hi][..hi - lo - 1] == log[lo..hi - 1];
    }
  }

  /** The rows carry exactly the tokens of what they cover. */
  lemma CoversTokens(rows: seq<Row>, log: seq<Event>, lo: nat, hi: nat)
    requires Covers(rows, log, lo, hi)
    ensures lo <= hi <= |log| && Tokens(Replayable(rows)) == Tokens(log[lo..hi])
  {
    CoversSay(rows, log, lo, hi);
    SaidIsTokens(rows);
    TextIsTokens(log, lo, hi);
  }

  predicate LiesAt(events: seq<Event>, log: seq<Event>, start: nat) {
    start + |events| <= |log| && forall j | 0 <= j < |events| :: events[j] == log[start + j]
  }

  /** Joining a batch covers the batch. */
  lemma CoalesceCovers(events: seq<Event>, log: seq<Event>, start: nat)
    requires LiesAt(events, log, start)
    ensures Covers(Coalesce(events, start), log, start, start + |events|)
  {
    BatchCovers(events, log, start);
    BatchCloses(BatchState(events, start, |events|), log, start, start + |events|);
  }

  /** The rows reach up to the open run, and the open run reaches up to the end of the batch. */
  predicate BatchReaches(b: Batch, log: seq<Event>, lo: nat, hi: nat) {
    if b.run.None? then Covers(b.rows, log, lo, hi)
    else
      && Covers(b.rows, log, lo, b.run.value.at) && Describes(b.run.value, log) && b.run.value.ev.Token?
      && b.run.value.at + b.run.value.span == hi
  }

  lemma BatchCloses(b: Batch, log: seq<Event>, lo: nat, hi: nat)
    requires BatchReaches(b, log, lo, hi) && hi <= |log|
    ensures Covers(b.rows + Close(b.run), log, lo, hi)
  {
    if b.run.None? {
      assert b.rows + [] == b.rows;
    } else {
      CoversSnoc(b.rows, b.run.value, log, lo, hi);
    }
  }

  /** What holds of the empty batch and survives every event holds of the batch. */
  lemma {:induction false} BatchKeeps(p: (Batch, nat) -> bool, events: seq<Event>, start: nat, k: nat)
    requires k <= |events| && p(Batch([], None), start)
    requires forall b, at: nat | start <= at < start + |events| && p(b, at) ::
               p(Take(b, events[at - start], at), at + 1)
    ensures p(BatchState(events, start, k), start + k)
    decreases k
  {
    if k > 0 { BatchKeeps(p, events, start, k - 1); }
  }

  predicate NoHeartbeats(rows: seq<Row>) { forall r | r in rows :: !Working(r.ev) }

  function Quiet(): (Batch, nat) -> bool {
    (b: Batch, at: nat) => NoHeartbeats(b.rows) && (b.run.Some? ==> b.run.value.ev.Token?)
  }

  /** No heartbeat is ever stored. */
  lemma CoalesceDropsHeartbeats(events: seq<Event>, start: nat)
    ensures NoHeartbeats(Coalesce(events, start))
  {
    BatchKeeps(Quiet(), events, start, |events|);
  }

  function Reaches(log: seq<Event>, lo: nat): (Batch, nat) -> bool {
    (b: Batch, at: nat) => BatchReaches(b, log, lo, at)
  }

  lemma BatchCovers(events: seq<Event>, log: seq<Event>, start: nat)
    requires LiesAt(events, log, start)
    ensures BatchReaches(BatchState(events, start, |events|), log, start, start + |events|)
  {
    forall b: Batch, at: nat | start <= at < start + |events| && Reaches(log, start)(b, at)
      ensures Reaches(log, start)(Take(b, events[at - start], at), at + 1)
    {
      assert events[at - start] == log[at];
      TakeReaches(b, log, start, at);
    }
    BatchKeeps(Reaches(log, start), events, start, |events|);
  }

  lemma TakeReaches(b: Batch, log: seq<Event>, lo: nat, at: nat)
    requires BatchReaches(b, log, lo, at) && at < |log|
    ensures BatchReaches(Take(b, log[at], at), log, lo, at + 1)
  {
    if log[at].Token? {
      TokenJoins(b, log, lo, at);
    } else {
      OtherCloses(b, log, lo, at);
    }
  }

  lemma TokenJoins(b: Batch, log: seq<Event>, lo: nat, at: nat)
    requires BatchReaches(b, log, lo, at) && at < |log| && log[at].Token?
    ensures BatchReaches(Take(b, log[at], at), log, lo, at + 1)
  {
    if b.run.None? { TokenOpens(log, at); } else { RunGrows(b.run.value, log, at); }
  }

  lemma TokenOpens(log: seq<Event>, at: nat)
    requires at < |log| && log[at].Token?
    ensures Describes(Row(at, 1, log[at]), log)
  {
    assert Text(log, at, at) == "";
  }

  lemma RunGrows(run: Row, log: seq<Event>, at: nat)
    requires Describes(run, log) && run.ev.Token? && run.at + run.span == at < |log| && log[at].Token?
    ensures Describes(Joined(run, log[at].delta), log)
  {}

  lemma OtherCloses(b: Batch, log: seq<Event>, lo: nat, at: nat)
    requires BatchReaches(b, log, lo, at) && at < |log| && !log[at].Token?
    ensures BatchReaches(Take(b, log[at], at), log, lo, at + 1)
  {
    BatchCloses(b, log, lo, at);
    var closed := b.rows + Close(b.run);
    if Working(log[at]) {
      CoversSilence(closed, log, lo, at, at + 1);
    } else {
      CoversSnoc(closed, Row(at, 1, log[at]), log, lo, at + 1);
    }
  }

  /** The store keeps covering the log: one more flushed batch. */
  lemma FlushCovers(rows: seq<Row>, log: seq<Event>, pending: seq<Event>, n: nat)
    requires Covers(rows, log, 0, n) && n + |pending| <= |log| && log[n..n + |pending|] == pending
    ensures Covers(rows + Coalesce(pending, n), log, 0, n + |pending|)
  {
    assert forall j | 0 <= j < |pending| :: pending[j] == log[n..n + |pending|][j] == log[n + j];
    CoalesceCovers(pending, log, n);
    CoversAppend(rows, Coalesce(pending, n), log, 0, n, n + |pending|);
  }

  // ---- replaying from a cursor ----

  function Reaching(from: nat): Row -> bool {
    (r: Row) => r.at + r.span > from
  }

  /** The rows that reach past the cursor are a tail of the store, and cover from their own start on. */
  lemma {:induction false} ReachingCovers(rows: seq<Row>, log: seq<Event>, hi: nat, from: nat)
    requires Covers(rows, log, 0, hi)
    ensures var part := Filter(Reaching(from), rows);
            part != [] ==> Covers(part, log, part[0].at, hi)
    decreases |rows|
  {
    if rows != [] {
      var init, r := rows[..|rows| - 1], rows[|rows| - 1];
      ReachingCovers(init, log, r.at, from);
      var before := Filter(Reaching(from), init);
      SplitLast(rows);
      FilterConcat(Reaching(from), init, [r]);
      CoversBounds(init, log, 0, r.at);
      ReachingStep(before, r, log, hi, from);
      if before != [] {
        FilterMembers(Reaching(from), init, before[0]);
      }
    }
  }

  lemma ReachingStep(before: seq<Row>, r: Row, log: seq<Event>, hi: nat, from: nat)
    requires Describes(r, log) && Silent(log, r.at + r.span, hi)
    requires before != [] ==> Covers(before, log, before[0].at, r.at)
    ensures var part := before + [r]; Covers(part, log, part[0].at, hi)
  {
    if before == [] {
      CoversSnoc([], r, log, r.at, hi);
    } else {
      CoversSnoc(before, r, log, before[0].at, hi);
    }
  }

  /** The stored replay: from a row boundary on, or everything after a reset. */
  function StoredReplay(rows: seq<Row>, from: nat): (bool, seq<Row>) {
    var part := Filter(Reaching(from), rows);
    if from == 0 then (false, rows)
    else if part != [] && part[0].at == from then (false, part)
    else (true, rows)
  }

  /** Where the job lives: only in the store, or still in memory with the events not yet flushed. */
  datatype Memory = Forgotten | Held(tailStart: nat, pending: seq<Event>)

  /** The three modes; `count` events are recorded so far and the stream is followed up to `upTo`. */
  function AttachReply(rows: seq<Row>, memory: Memory, from: nat, count: nat, upTo: nat): Reply {
    match memory
    case Forgotten =>
      var (reset, part) := StoredReplay(rows, from);
      Compact(reset, Replayable(part), count, count)
    case Held(tailStart, pending) =>
      if from >= tailStart then Tail(upTo)
      else Compact(true, Replayable(rows) + Replayable(Coalesce(pending, 0)), count, upTo)
  }

  /** What the server holds of the log when it answers. */
  predicate Keeps(log: seq<Event>, rows: seq<Row>, memory: Memory, count: nat) {
    && count <= |log| && count < 0x8000_0000
    && match memory
       case Forgotten => Covers(rows, log, 0, count)
       case Held(_, pending) =>
         && |pending| <= count && Covers(rows, log, 0, count - |pending|)
         && pending == log[count - |pending|..count]
  }

  lemma {:induction false} RowsAreReplayEvents(rows: seq<Row>, log: seq<Event>, lo: nat, hi: nat)
    requires IsLog(log) && Covers(rows, log, lo, hi)
    ensures ReplayEvents(Replayable(rows))
  {
    CoversBounds(rows, log, lo, hi);
    forall k | 0 <= k < |rows|
      ensures !Framing(rows[k].ev) && (rows[k].ev.Job? ==> rows[k].ev.id != "")
    {
      assert rows[k] in rows;
    }
  }

  lemma StoredReplayIsLegal(log: seq<Event>, rows: seq<Row>, from: nat, count: nat)
    requires IsLog(log) && Covers(rows, log, 0, count) && count < 0x8000_0000
    ensures var (reset, part) := StoredReplay(rows, from);
            LegalReply(log, from, Compact(reset, Replayable(part), count, count))
  {
    var (reset, part) := StoredReplay(rows, from);
    CoversBounds(rows, log, 0, count);
    assert log[0..count] == log[..count] && log[..0] == [];
    if reset || from == 0 {
      CoversTokens(rows, log, 0, count);
      RowsAreReplayEvents(rows, log, 0, count);
      assert "" + Tokens(log[..count]) == Tokens(log[..count]);
    } else {
      ReachingCovers(rows, log, count, from);
      CoversTokens(part, log, from, count);
      RowsAreReplayEvents(part, log, from, count);
      TokensBetween(log, from, count);
    }
  }

  lemma PendingReplayIsLegal(log: seq<Event>, rows: seq<Row>, pending: seq<Event>, from: nat, count: nat, upTo: nat)
    requires IsLog(log) && Keeps(log, rows, Held(from + 1, pending), count) && count <= upTo <= |log|
    ensures LegalReply(log, from, Compact(true, Replayable(rows) + Replayable(Coalesce(pending, 0)), count, upTo))
  {
    var n := count - |pending|;
    CoversTokens(rows, log, 0, n);
    RowsAreReplayEvents(rows, log, 0, n);
    PendingRows(log, pending, n);
    TokensConcat(Replayable(rows), Replayable(Coalesce(pending, 0)));
    TokensBetween(log, n, count);
    assert log[0..n] == log[..n];
    assert "" + Tokens(log[..count]) == Tokens(log[..count]);
  }

  /** The unflushed events, joined on their own, carry their tokens. */
  lemma PendingRows(log: seq<Event>, pending: seq<Event>, n: nat)
    requires IsLog(log) && n + |pending| <= |log| && pending == log[n..n + |pending|]
    ensures var es := Replayable(Coalesce(pending, 0));
            ReplayEvents(es) && Tokens(es) == Tokens(log[n..n + |pending|])
  {
    CoalesceCovers(pending, pending, 0);
    WholeTokens(Coalesce(pending, 0), pending);
    PendingEvents(log, pending, n, Coalesce(pending, 0));
  }

  lemma WholeTokens(rows: seq<Row>, events: seq<Event>)
    requires Covers(rows, events, 0, |events|)
    ensures Tokens(Replayable(rows)) == Tokens(events)
  {
    CoversTokens(rows, events, 0, |events|);
    assert events[0..|events|] == events;
  }

  lemma PendingEvents(log: seq<Event>, pending: seq<Event>, n: nat, rows: seq<Row>)
    requires IsLog(log) && n + |pending| <= |log| && pending == log[n..n + |pending|]
    requires Covers(rows, pending, 0, |pending|)
    ensures ReplayEvents(Replayable(rows))
  {
    CoversBounds(rows, pending, 0, |pending|);
    assert forall k | 0 <= k < |rows| :: rows[k] in rows && Describes(rows[k], pending);
    forall k | 0 <= k < |rows|
      ensures !Framing(rows[k].ev) && (rows[k].ev.Job? ==> rows[k].ev.id != "")
    {
      RowIsRecorded(log, pending, n, rows[k]);
    }
  }

  lemma RowIsRecorded(log: seq<Event>, pending: seq<Event>, n: nat, r: Row)
    requires IsLog(log) && n + |pending| <= |log| && pending == log[n..n + |pending|] && Describes(r, pending)
    ensures !Framing(r.ev) && (r.ev.Job? ==> r.ev.id != "")
  {
    assert pending[r.at] == log[n + r.at];
  }

  /**
   Every answer of the server is a legal reply: for every log, every way of cutting it into flushed
   batches, and every cursor that does not lie beyond what was recorded.
   */
  lemma AnswersAreLegal(log: seq<Event>, rows: seq<Row>, memory: Memory, from: nat, count: nat, upTo: nat)
    requires IsLog(log) && Keeps(log, rows, memory, count) && from <= count <= upTo <= |log|
    ensures LegalReply(log, from, AttachReply(rows, memory, from, count, upTo))
  {
    match memory {
      case Forgotten => StoredReplayIsLegal(log, rows, from, count);
      case Held(tailStart, pending) =>
        if from < tailStart {
          PendingReplayIsLegal(log, rows, pending, from, count, upTo);
        }
    }
  }

  // ---- when the page is wiped ----

  /** Some stored row starts at the cursor. */
  predicate StartsRow(rows: seq<Row>, from: nat) { exists r :: r in rows && r.at == from }

  /** The rows past the cursor start at it exactly when some row does. */
  lemma {:induction false} BoundaryExactly(rows: seq<Row>, log: seq<Event>, hi: nat, from: nat)
    requires Covers(rows, log, 0, hi)
    ensures var part := Filter(Reaching(from), rows); part != [] && part[0].at == from <==> StartsRow(rows, from)
    decreases |rows|
  {
    if rows != [] {
      var init, r := rows[..|rows| - 1], rows[|rows| - 1];
      BoundaryExactly(init, log, r.at, from);
      CoversBounds(init, log, 0, r.at);
      BoundarySnoc(init, r, from);
      SplitLast(rows);
    }
  }

  lemma BoundarySnoc(init: seq<Row>, r: Row, from: nat)
    requires r.span > 0 && forall x | x in init :: x.at + x.span <= r.at && x.span > 0
    requires var before := Filter(Reaching(from), init); before != [] && before[0].at == from <==> StartsRow(init, from)
    ensures var part := Filter(Reaching(from), init + [r]);
            part != [] && part[0].at == from <==> StartsRow(init + [r], from)
  {
    var before := Filter(Reaching(from), init);
    FilterConcat(Reaching(from), init, [r]);
    if before != [] { FilterMembers(Reaching(from), init, before[0]); }
    if x :| x in init && x.at == from { FilterMembers(Reaching(from), init, x); }
    assert Filter(Reaching(from), [r]) == if Reaching(from)(r) then [r] else [];
  }

  /**
   The server wipes the page exactly when the job is held and the cursor has fallen off its tail, or
   when the job is forgotten and the cursor lies inside a stored row; and it sends the log as it is
   exactly when the job is held and the cursor lies in the tail.
   */
  lemma ResetsExactly(log: seq<Event>, rows: seq<Row>, memory: Memory, from: nat, count: nat, upTo: nat)
    requires Keeps(log, rows, memory, count)
    ensures var r := AttachReply(rows, memory, from, count, upTo);
            && (r.Tail? <==> memory.Held? && from >= memory.tailStart)
            && (r.Compact? && r.reset
                <==> if memory.Held? then from < memory.tailStart else from > 0 && !StartsRow(rows, from))
  {
    if memory.Forgotten? { BoundaryExactly(rows, log, count, from); }
  }

  // ---- cutting a stored replay ----

  /**
   Rows without a job event, cut after some of them: the page has the text up to the end of the last
   row but counted one per row, so the cut is safe exactly when the events it failed to count carry
   no text.
   */
  lemma CutRowsExactly(log: seq<Event>, rows: seq<Row>, from: nat, past: nat)
    requires Covers(rows, log, from, past) && forall r | r in rows :: !r.ev.Job?
    ensures from + |rows| <= past <= |log|
    ensures SafeCut(log, from, false, Replayable(rows)) <==> Tokens(log[from + |rows|..past]) == ""
  {
    CoversCount(rows, log, from, past);
    CoversTokens(rows, log, from, past);
    CountedPerRow(log, rows, from, past);
  }

  lemma CountedPerRow(log: seq<Event>, rows: seq<Row>, from: nat, past: nat)
    requires from + |rows| <= past <= |log| && forall r | r in rows :: !r.ev.Job?
    requires Tokens(Replayable(rows)) == Tokens(log[from..past])
    ensures SafeCut(log, from, false, Replayable(rows)) <==> Tokens(log[from + |rows|..past]) == ""
  {
    NoJobCounts(rows, from);
    SafeCutText(log, from, Replayable(rows), from + |rows|, past);
  }

  lemma SafeCutText(log: seq<Event>, from: nat, replayed: seq<Event>, n: nat, past: nat)
    requires from <= n <= past <= |log| && n == CursorAfter(from, replayed)
    requires Tokens(replayed) == Tokens(log[from..past])
    ensures SafeCut(log, from, false, replayed) <==> Tokens(log[n..past]) == ""
  {
    TokensBetween(log, from, past);
    TokensBetween(log, n, past);
    AppendsNothing(Tokens(log[..n]), Tokens(log[n..past]));
  }

  lemma {:induction false} CoversCount(rows: seq<Row>, log: seq<Event>, lo: nat, hi: nat)
    requires Covers(rows, log, lo, hi)
    ensures lo + |rows| <= hi <= |log|
    decreases |rows|
  {
    if rows != [] {
      CoversCount(rows[..|rows| - 1], log, lo, rows[|rows| - 1].at);
    }
  }

  lemma NoJobCounts(rows: seq<Row>, from: nat)
    requires forall r | r in rows :: !r.ev.Job?
    ensures CursorAfter(from, Replayable(rows)) == from + |rows|
  {
    forall k | 0 <= k < |rows|
      ensures !Replayable(rows)[k].Job?
    {
      assert rows[k] in rows;
    }
    CursorCountsFromLastJob(from, Replayable(rows), -1);
  }
}
