/**
 Whole runs of one turn: cuts, reattaches from the kept cursor, fresh and compacted replays
 (`attemptReattach` and `readSse` in public/app.js).
 */
module TurnRuns {
  import opened Sequences
  import opened TurnStream
  import opened TurnFrames

  /** A turn that was just sent: no job id yet. */
  const FRESH: Turn := Turn("", Some(LiveJob("", 0)))

  /** One connection: whether the on-screen session was kept, the reply, its frames, the text that arrived. */
  datatype Visit = Visit(kept: bool, reply: Reply, frames: seq<Frame>, text: string)

  /** The state in which a visit starts; `attemptReattach` gives up while no job id is known. */
  function Before(t: Turn, v: Visit): Turn
    requires t.live.Some?
  {
    if v.kept then t else Restarted(t)
  }

  predicate LegalVisit(decode: Decoder, log: seq<Event>, t: Turn, v: Visit) {
    && t.live.Some?
    && var from := Before(t, v).live.value.eventIndex;
    && (t.live.value.jobId == "" ==> v.reply.Tail?)
    && LegalReply(log, from, v.reply)
    && Spells(decode, v.frames, Sent(log, from, v.reply))
    && v.text <= Stream(v.frames)
  }

  function After(decode: Decoder, t: Turn, v: Visit): Turn
    requires t.live.Some?
  {
    DispatchAll(Before(t, v), Received(decode, v.text))
  }

  predicate LegalRun(decode: Decoder, log: seq<Event>, t: Turn, visits: seq<Visit>)
    decreases |visits|
  {
    visits == [] ||
    (LegalVisit(decode, log, t, visits[0]) && LegalRun(decode, log, After(decode, t, visits[0]), visits[1..]))
  }

  function Play(decode: Decoder, log: seq<Event>, t: Turn, visits: seq<Visit>): Turn
    requires LegalRun(decode, log, t, visits)
    decreases |visits|
  {
    if visits == [] then t else Play(decode, log, After(decode, t, visits[0]), visits[1..])
  }

  /** Where the text of this visit ends is a safe place to cut its reply. */
  predicate CutSafely(decode: Decoder, log: seq<Event>, t: Turn, v: Visit)
    requires LegalVisit(decode, log, t, v)
  {
    CutIsSafe(log, Before(t, v).live.value.eventIndex, v.reply, |Received(decode, v.text)|)
  }

  predicate AllCutsSafe(decode: Decoder, log: seq<Event>, t: Turn, visits: seq<Visit>)
    requires LegalRun(decode, log, t, visits)
    decreases |visits|
  {
    visits == [] ||
    (CutSafely(decode, log, t, visits[0]) && AllCutsSafe(decode, log, After(decode, t, visits[0]), visits[1..]))
  }

  /** Text and cursor are in step after every visit. */
  predicate AlwaysSynced(decode: Decoder, log: seq<Event>, t: Turn, visits: seq<Visit>)
    requires LegalRun(decode, log, t, visits)
    decreases |visits|
  {
    Synced(t, log) && (visits == [] || AlwaysSynced(decode, log, After(decode, t, visits[0]), visits[1..]))
  }

  /**
   Across every run of arbitrary cuts, reattaches from the kept cursor, fresh and compacted replays,
   the answer on screen is always the concatenation of the token deltas below the cursor, none lost
   and none repeated, exactly when every cut inside a compacted reply is a safe one.
   */
  lemma {:induction false} TokensExactlyOnce(decode: Decoder, log: seq<Event>, t: Turn, visits: seq<Visit>)
    requires IsLog(log) && Synced(t, log) && LegalRun(decode, log, t, visits)
    ensures AlwaysSynced(decode, log, t, visits) <==> AllCutsSafe(decode, log, t, visits)
    decreases |visits|
  {
    if visits != [] {
      VisitSyncsExactly(decode, log, t, visits[0]);
      if CutSafely(decode, log, t, visits[0]) {
        TokensExactlyOnce(decode, log, After(decode, t, visits[0]), visits[1..]);
      } else {
        OutOfStep(decode, log, After(decode, t, visits[0]), visits[1..]);
      }
    }
  }

  lemma OutOfStep(decode: Decoder, log: seq<Event>, t: Turn, visits: seq<Visit>)
    requires LegalRun(decode, log, t, visits) && !Synced(t, log)
    ensures !AlwaysSynced(decode, log, t, visits)
  {}

  lemma {:induction false} EndsSynced(decode: Decoder, log: seq<Event>, t: Turn, visits: seq<Visit>)
    requires LegalRun(decode, log, t, visits) && AlwaysSynced(decode, log, t, visits)
    ensures Synced(Play(decode, log, t, visits), log)
    decreases |visits|
  {
    if visits != [] {
      EndsSynced(decode, log, After(decode, t, visits[0]), visits[1..]);
    }
  }

  /** A whole turn from its first byte: once the cursor reaches the end, the answer is complete. */
  lemma FinishedTurnIsWhole(decode: Decoder, log: seq<Event>, visits: seq<Visit>)
    requires IsLog(log) && LegalRun(decode, log, FRESH, visits) && AllCutsSafe(decode, log, FRESH, visits)
    ensures var r := Play(decode, log, FRESH, visits);
            && r.live.Some? && 0 <= r.live.value.eventIndex <= |log|
            && r.raw == Tokens(log[..r.live.value.eventIndex])
            && (r.live.value.eventIndex == |log| ==> r.raw == Tokens(log))
  {
    assert log[..0] == [];
    TokensExactlyOnce(decode, log, FRESH, visits);
    EndsSynced(decode, log, FRESH, visits);
    assert log[..|log|] == log;
  }

  /** A connection that is never cut: its frames spell the log, and all of their text arrives. */
  predicate Uncut(decode: Decoder, log: seq<Event>, v: Visit) {
    && v.kept && v.reply == Tail(|log|) && v.text == Stream(v.frames) && Spells(decode, v.frames, log)
  }

  /** It is a legal run of one visit and shows the whole answer. */
  lemma UncutTurnIsWhole(decode: Decoder, log: seq<Event>, v: Visit)
    requires IsLog(log) && Uncut(decode, log, v)
    ensures LegalRun(decode, log, FRESH, [v])
    ensures var r := Play(decode, log, FRESH, [v]);
            r.live.Some? && r.live.value.eventIndex == |log| && r.raw == Tokens(log)
  {
    UncutVisit(decode, log, v);
    WholeLogSyncs(log);
    OneVisit(decode, log, v);
  }

  lemma UncutVisit(decode: Decoder, log: seq<Event>, v: Visit)
    requires IsLog(log) && Uncut(decode, log, v)
    ensures LegalVisit(decode, log, FRESH, v) && After(decode, FRESH, v) == DispatchAll(FRESH, log)
  {
    CutFramesDeliverPrefix(decode, v.frames, log, v.text);
    assert log[0..|log|] == log;
  }

  lemma WholeLogSyncs(log: seq<Event>)
    requires IsLog(log)
    ensures var r := DispatchAll(FRESH, log);
            r.live.Some? && r.live.value.eventIndex == |log| && r.raw == Tokens(log)
  {
    assert log[0..|log|] == log[..|log|] == log && log[..0] == [];
    TailStaysSynced(FRESH, log, |log|);
  }

  lemma OneVisit(decode: Decoder, log: seq<Event>, v: Visit)
    requires LegalVisit(decode, log, FRESH, v)
    ensures LegalRun(decode, log, FRESH, [v]) && Play(decode, log, FRESH, [v]) == After(decode, FRESH, v)
  {
    assert [v][1..] == [];
  }

  /** One visit with an arbitrary cut keeps text and cursor in step exactly when the cut is safe. */
  lemma VisitSyncsExactly(decode: Decoder, log: seq<Event>, t: Turn, v: Visit)
    requires IsLog(log) && Synced(t, log) && LegalVisit(decode, log, t, v)
    ensures Synced(After(decode, t, v), log) <==> CutSafely(decode, log, t, v)
  {
    CutFramesDeliverPrefix(decode, v.frames, Sent(log, Before(t, v).live.value.eventIndex, v.reply), v.text);
    assert log[..0] == [];
    PrefixSyncsExactly(Before(t, v), log, v.reply, Received(decode, v.text));
  }

  /** A fresh replay that is cut safely repairs any turn, however far out of step it was. */
  lemma FreshReplayHeals(decode: Decoder, log: seq<Event>, t: Turn, v: Visit)
    requires IsLog(log) && t.live.Some? && !v.kept && LegalVisit(decode, log, t, v) && CutSafely(decode, log, t, v)
    ensures Synced(After(decode, t, v), log)
  {
    assert log[..0] == [];
    assert Synced(Restarted(t), log);
    assert Before(Restarted(t), v) == Restarted(t) == Before(t, v);
    VisitSyncsExactly(decode, log, Restarted(t), v);
  }

  // ---- a compacted reply without a reset, cut between its tokens and its cursor ----

  const SAMPLE: seq<Event> := [Job("j"), Token("a"), Token("b"), Token("c")]

  /** The page shows nothing yet and has counted the job event. */
  const KEPT: Turn := Turn("", Some(LiveJob("j", 1)))

  /** A kept visit that is answered by this resetless replay and by which these events arrive. */
  predicate Resumed(decode: Decoder, v: Visit, replay: seq<Event>, got: seq<Event>) {
    && v.kept && v.reply == Compact(false, replay, 4, 4) && v.text <= Stream(v.frames)
    && Spells(decode, v.frames, replay + [Cursor(4)])
    && Received(decode, v.text) == got
  }

  /**
   The joined tokens advance the cursor by one where the log counts each of them. A cut before the
   cursor event leaves the page behind, at a cursor from which the server resends a later run: the
   text ends with a repetition although the cursor stands at the end of the log.
   */
  lemma JoinedTokensRepeat(decode: Decoder, v: Visit, w: Visit)
    requires Resumed(decode, v, JOINED, JOINED)
    requires Resumed(decode, w, [Token("c")], [Token("c"), Cursor(4)])
    ensures IsLog(SAMPLE) && Synced(KEPT, SAMPLE) && Tokens(SAMPLE) == "abc"
    ensures LegalRun(decode, SAMPLE, KEPT, [v, w]) && !AllCutsSafe(decode, SAMPLE, KEPT, [v, w])
    ensures Play(decode, SAMPLE, KEPT, [v, w]) == Turn("abcc", Some(LiveJob("j", |SAMPLE|)))
  {
    KeptIsInStep();
    FirstLegIs(decode, v);
    SecondVisit(decode, w);
    FirstCutIsUnsafe(decode, v);
    BothVisits(decode, v, w);
  }

  lemma KeptIsInStep()
    ensures IsLog(SAMPLE) && Synced(KEPT, SAMPLE) && Tokens(SAMPLE) == "abc"
  {
    SampleTokens();
  }

  lemma BothVisits(decode: Decoder, v: Visit, w: Visit)
    requires LegalVisit(decode, SAMPLE, KEPT, v) && After(decode, KEPT, v) == BEHIND
    requires LegalVisit(decode, SAMPLE, BEHIND, w) && !CutSafely(decode, SAMPLE, KEPT, v)
    ensures LegalRun(decode, SAMPLE, KEPT, [v, w]) && !AllCutsSafe(decode, SAMPLE, KEPT, [v, w])
    ensures Play(decode, SAMPLE, KEPT, [v, w]) == After(decode, BEHIND, w)
  {
    TwoVisits(decode, SAMPLE, KEPT, v, w);
  }

  lemma FirstLegIs(decode: Decoder, v: Visit)
    requires Resumed(decode, v, JOINED, JOINED)
    ensures LegalVisit(decode, SAMPLE, KEPT, v) && After(decode, KEPT, v) == BEHIND
  {
    LegsAreLegal();
    FirstLeg();
  }

  lemma FirstCutIsUnsafe(decode: Decoder, v: Visit)
    requires Resumed(decode, v, JOINED, JOINED)
    ensures LegalVisit(decode, SAMPLE, KEPT, v) && !CutSafely(decode, SAMPLE, KEPT, v)
  {
    KeptIsInStep();
    FirstLegIs(decode, v);
    BehindIsOutOfStep();
    VisitSyncsExactly(decode, SAMPLE, KEPT, v);
  }

  lemma BehindIsOutOfStep()
    ensures !Synced(BEHIND, SAMPLE)
  {
    SampleTokens();
    assert |BEHIND.raw| == 3 && |Tokens(SAMPLE[..3])| == 2;
  }

  lemma SecondVisit(decode: Decoder, w: Visit)
    requires Resumed(decode, w, [Token("c")], [Token("c"), Cursor(4)])
    ensures LegalVisit(decode, SAMPLE, BEHIND, w)
    ensures After(decode, BEHIND, w) == Turn("abcc", Some(LiveJob("j", |SAMPLE|)))
  {
    LegsAreLegal();
    SecondLeg(Received(decode, w.text));
  }

  const JOINED: seq<Event> := [Token("ab"), Token("c")]

  lemma SampleTokens()
    ensures Tokens(SAMPLE[..1]) == "" && Tokens(SAMPLE[..3]) == "ab" && Tokens(SAMPLE[..4]) == "abc"
    ensures SAMPLE[..4] == SAMPLE
  {
    TokensNext(SAMPLE, 0);
    TokensNext(SAMPLE, 1);
    TokensNext(SAMPLE, 2);
    TokensNext(SAMPLE, 3);
  }

  lemma JoinedTokens()
    ensures Tokens(JOINED) == "abc" && Tokens([Token("c")]) == "c"
  {
    TokensNext(JOINED, 0);
    TokensNext(JOINED, 1);
    assert JOINED[..2] == JOINED;
    TokensNext([Token("c")], 0);
    assert [Token("c")][..1] == [Token("c")];
  }

  lemma TokensNext(es: seq<Event>, k: nat)
    requires k < |es|
    ensures Tokens(es[..k + 1]) == Tokens(es[..k]) + if es[k].Token? then es[k].delta else ""
    ensures Tokens(es[..0]) == ""
  {
    assert es[..k + 1][..k] == es[..k];
  }

  lemma DispatchNext(t: Turn, es: seq<Event>, k: nat)
    requires k < |es|
    ensures DispatchAll(t, es[..k + 1]) == Dispatch(DispatchAll(t, es[..k]), es[k])
    ensures DispatchAll(t, es[..0]) == t
  {
    assert es[..k + 1][..k] == es[..k];
  }

  const BEHIND: Turn := Turn("abc", Some(LiveJob("j", 3)))

  lemma FirstLeg()
    ensures DispatchAll(KEPT, JOINED) == BEHIND
  {
    DispatchNext(KEPT, JOINED, 0);
    DispatchNext(KEPT, JOINED, 1);
    assert JOINED[..2] == JOINED;
  }

  lemma SecondLeg(es: seq<Event>)
    requires es == [Token("c"), Cursor(4)]
    ensures DispatchAll(BEHIND, es) == Turn("abcc", Some(LiveJob("j", 4)))
  {
    DispatchNext(BEHIND, es, 0);
    DispatchNext(BEHIND, es, 1);
    assert es[..2] == es;
  }

  /** Both answers are what the server may send for the cursor it was asked. */
  lemma LegsAreLegal()
    ensures LegalReply(SAMPLE, 1, Compact(false, JOINED, 4, 4))
    ensures LegalReply(SAMPLE, 3, Compact(false, [Token("c")], 4, 4))
    ensures Sent(SAMPLE, 1, Compact(false, JOINED, 4, 4)) == JOINED + [Cursor(4)]
    ensures Sent(SAMPLE, 3, Compact(false, [Token("c")], 4, 4)) == [Token("c")] + [Cursor(4)]
  {
    SampleTokens();
    JoinedTokens();
    assert SAMPLE[4..4] == [];
  }

  lemma TwoVisits(decode: Decoder, log: seq<Event>, t: Turn, v: Visit, w: Visit)
    requires LegalVisit(decode, log, t, v) && LegalVisit(decode, log, After(decode, t, v), w)
    ensures LegalRun(decode, log, t, [v, w])
    ensures Play(decode, log, t, [v, w]) == After(decode, After(decode, t, v), w)
    ensures AllCutsSafe(decode, log, t, [v, w]) ==> CutSafely(decode, log, t, v)
  {
    var m := After(decode, t, v);
    RunStarts(decode, log, m, w, []);
    RunStarts(decode, log, t, v, [w]);
    assert [v] + [w] == [v, w] && [w] + [] == [w];
  }

  lemma RunStarts(decode: Decoder, log: seq<Event>, t: Turn, v: Visit, rest: seq<Visit>)
    requires LegalVisit(decode, log, t, v) && LegalRun(decode, log, After(decode, t, v), rest)
    ensures LegalRun(decode, log, t, [v] + rest)
    ensures Play(decode, log, t, [v] + rest) == Play(decode, log, After(decode, t, v), rest)
    ensures AllCutsSafe(decode, log, t, [v] + rest) ==> CutSafely(decode, log, t, v)
  {
    assert ([v] + rest)[1..] == rest;
  }
}
