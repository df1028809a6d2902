/**
 Whole runs of the build journal viewer: connections that drop, overlap and resend, jobs that are
 followed one after another, and the idle reset of `sync` (public/dominion-lenses.js).
 */
module JournalRuns {
  import opened Sequences
  import opened BuildDigest
  import opened BuildJournal

  /** The finished journal of every job. */
  type Journals = string -> seq<Entry>

  datatype Action =
    Fire(timer: nat, start: nat) | Next(c: nat) | Cut(c: nat) | Vanish(c: nat) | Open(job: string) | Idle

  /**
   The page, the server's position on every connection, the job that was followed last, and the
   reconnect timers that are armed, each with the job of the connection that dropped.
   */
  datatype World = World(viewer: Viewer, position: seq<nat>, job: string, timers: seq<string>)

  const START: World := World(IDLE, [], "", [])

  predicate Wired(w: World) { |w.position| == |w.viewer.connections| }

  predicate IsOpen(w: World, c: nat)
    requires Wired(w)
  {
    c < |w.position| && !w.viewer.connections[c].closed
  }

  function Stream(w: World, js: Journals, c: nat): seq<Entry>
    requires Wired(w) && c < |w.position|
  {
    js(w.viewer.connections[c].job)
  }

  /** A dropped connection is retried if it was open and had not ended. */
  predicate Retries(w: World, c: nat)
    requires Wired(w) && c < |w.position|
  {
    IsOpen(w, c) && !w.viewer.connections[c].ended
  }

  /**
   Only an armed timer fires and only open connections act. The server may resend from any index at
   or below the requested one, and then delivers consecutive entries.
   */
  predicate Legal(w: World, js: Journals, a: Action)
    requires Wired(w)
  {
    match a
    case Fire(timer, start) => timer < |w.timers| && start <= |w.viewer.events|
    case Next(c) => IsOpen(w, c) && w.position[c] < |Stream(w, js, c)|
    case Cut(c) => c < |w.position|
    case Vanish(c) => IsOpen(w, c)
    case Open(_) => true
    case Idle => true
  }

  /** A drop arms a timer; a timer reattaches the followed job only; an open starts at 0. */
  function Act(w: World, js: Journals, a: Action): (r: World)
    requires Wired(w) && Legal(w, js, a)
    ensures Wired(r)
  {
    match a
    case Fire(timer, start) =>
      var fired := w.(timers := w.timers[..timer] + w.timers[timer + 1..]);
      if w.timers[timer] == "" || w.timers[timer] != w.viewer.jobId then fired
      else fired.(viewer := AttachTo(w.viewer, w.viewer.jobId), position := w.position + [start])
    case Next(c) =>
      w.(viewer := Receive(w.viewer, c, Deliver(Stream(w, js, c)[w.position[c]])),
         position := w.position[c := w.position[c] + 1])
    case Cut(c) =>
      w.(viewer := Drop(w.viewer, c), timers := w.timers + if Retries(w, c) then [w.viewer.connections[c].job] else [])
    case Vanish(c) => w.(viewer := Receive(w.viewer, c, Gone))
    case Open(job) =>
      if job == "" || job == w.viewer.jobId then w
      else World(FollowJob(w.viewer, job), w.position + [0], job, w.timers)
    case Idle => w.(viewer := ShowIdle(w.viewer))
  }

  predicate LegalRun(w: World, js: Journals, actions: seq<Action>)
    requires Wired(w)
    decreases |actions|
  {
    actions == [] || (Legal(w, js, actions[0]) && LegalRun(Act(w, js, actions[0]), js, actions[1..]))
  }

  function Play(w: World, js: Journals, actions: seq<Action>): (r: World)
    requires Wired(w) && LegalRun(w, js, actions)
    ensures Wired(r)
    decreases |actions|
  {
    if actions == [] then w else Play(Act(w, js, actions[0]), js, actions[1..])
  }

  lemma PlayCons(w: World, js: Journals, a: Action, rest: seq<Action>)
    requires Wired(w) && Legal(w, js, a) && LegalRun(Act(w, js, a), js, rest)
    ensures LegalRun(w, js, [a] + rest) && Play(w, js, [a] + rest) == Play(Act(w, js, a), js, rest)
  {
    assert ([a] + rest)[1..] == rest;
  }

  // Runs of any partial step, to join runs without looking into the actions.

  type Step = (World, Action) -> Option<World>

  function Steps(step: Step, w: World, actions: seq<Action>): Option<World>
    decreases |actions|
  {
    if actions == [] then Some(w)
    else if step(w, actions[0]).None? then None
    else Steps(step, step(w, actions[0]).value, actions[1..])
  }

  lemma {:induction false} StepsConcat(step: Step, w: World, a: seq<Action>, b: seq<Action>)
    ensures Steps(step, w, a + b) ==
            if Steps(step, w, a).None? then None else Steps(step, Steps(step, w, a).value, b)
    decreases |a|
  {
    if a == [] {
      assert a + b == b;
    } else if step(w, a[0]).Some? {
      StepsConcat(step, step(w, a[0]).value, a[1..], b);
      assert (a + b)[1..] == a[1..] + b;
    }
  }

  function Moves(js: Journals): Step {
    (w: World, a: Action) => if Wired(w) && Legal(w, js, a) then Some(Act(w, js, a)) else None
  }

  lemma {:induction false} PlayIsSteps(w: World, js: Journals, actions: seq<Action>)
    requires Wired(w)
    ensures LegalRun(w, js, actions) <==> Steps(Moves(js), w, actions).Some?
    ensures LegalRun(w, js, actions) ==> Steps(Moves(js), w, actions).value == Play(w, js, actions)
    decreases |actions|
  {
    if actions != [] && Legal(w, js, actions[0]) {
      PlayIsSteps(Act(w, js, actions[0]), js, actions[1..]);
    }
  }

  lemma PlayConcat(w: World, js: Journals, a: seq<Action>, b: seq<Action>)
    requires Wired(w) && LegalRun(w, js, a) && LegalRun(Play(w, js, a), js, b)
    ensures LegalRun(w, js, a + b) && Play(w, js, a + b) == Play(Play(w, js, a), js, b)
  {
    PlayIsSteps(w, js, a);
    PlayIsSteps(Play(w, js, a), js, b);
    PlayIsSteps(w, js, a + b);
    StepsConcat(Moves(js), w, a, b);
  }

  // ---- the invariant ----

  function RecordSet(entries: seq<Entry>): set<string> {
    set k | 0 <= k < |entries| && entries[k].record != "" :: entries[k].record
  }

  /** Every entry of every journal carries a stamp of its own. */
  ghost predicate Stamped(js: Journals) {
    && (forall a, j | 0 <= j < |js(a)| :: js(a)[j].record != "")
    && forall a, b, j, k | 0 <= j < |js(a)| && 0 <= k < |js(b)| && js(a)[j].record == js(b)[k].record ::
         a == b && j == k
  }

  /** What is on screen is the beginning of the followed job's journal. */
  predicate PanelRight(w: World, js: Journals) { w.viewer.events <= js(w.job) }

  /** The connection has nothing left that the page has not seen. */
  predicate Exhausted(w: World, js: Journals, c: nat)
    requires Wired(w) && c < |w.position|
  {
    forall q | w.position[c] <= q < |Stream(w, js, c)| :: Stream(w, js, c)[q].record in w.viewer.seen
  }

  /** The connection streams the followed job and is not ahead of the panel. */
  predicate Tracking(w: World, c: nat)
    requires Wired(w) && c < |w.position|
  {
    && w.viewer.connections[c].job == w.job && w.position[c] <= |w.viewer.events|
    && w.viewer.seen == RecordSet(w.viewer.events)
  }

  /** Every connection still open either tracks the panel or has nothing new to say. */
  predicate Calm(w: World, js: Journals)
    requires Wired(w)
  {
    forall c | 0 <= c < |w.position| && IsOpen(w, c) :: Tracking(w, c) || Exhausted(w, js, c)
  }

  predicate InStep(w: World, js: Journals) {
    && Wired(w) && PanelRight(w, js) && Calm(w, js)
    && (w.viewer.jobId != "" ==> w.viewer.jobId == w.job && w.viewer.seen == RecordSet(w.viewer.events))
  }

  lemma RecordSetSnoc(entries: seq<Entry>, e: Entry)
    ensures RecordSet(entries + [e]) == RecordSet(entries) + if e.record != "" then {e.record} else {}
  {
    var more := entries + [e];
    forall r | r in RecordSet(entries) || (e.record != "" && r == e.record)
      ensures r in RecordSet(more)
    {
      if r in RecordSet(entries) {
        var k :| 0 <= k < |entries| && entries[k].record != "" && entries[k].record == r;
        assert more[k].record == r;
      } else {
        assert more[|entries|].record == r;
      }
    }
  }

  /** A delivery at or below the prefix either repeats a seen record or extends the prefix by one. */
  lemma DeliveryStaysOnTrack(v: Viewer, journal: seq<Entry>, c: nat, at: nat)
    requires forall k | 0 <= k <= at && k < |journal| :: journal[k].record != ""
    requires forall j, k | 0 <= j < k <= at && k < |journal| :: journal[j].record != journal[k].record
    requires v.events <= journal && v.seen == RecordSet(v.events)
    requires c < |v.connections| && at <= |v.events| && at < |journal|
    ensures var r := Receive(v, c, Deliver(journal[at]));
            && r.events == (if at < |v.events| then v.events else journal[..at + 1])
            && r.seen == RecordSet(r.events) && r.events <= journal
  {
    var e := journal[at];
    if at < |v.events| {
      assert v.events[at] == e;
      assert e.record in v.seen;
    } else {
      assert forall k | 0 <= k < at :: v.events[k].record == journal[k].record != e.record;
      assert e.record !in v.seen;
      assert journal[..at + 1] == v.events + [e];
      RecordSetSnoc(v.events, e);
    }
  }

  predicate Network(a: Action) { !a.Open? && !a.Idle? }

  predicate AllNetwork(actions: seq<Action>) {
    forall k | 0 <= k < |actions| :: Network(actions[k])
  }

  /** Calm connections stay calm while the panel and what was seen grow together. */
  lemma CalmKept(w: World, r: World, js: Journals, d: nat)
    requires Wired(w) && Wired(r) && d < |w.position| <= |r.position| && r.job == w.job
    requires r.viewer.connections[d].job == w.viewer.connections[d].job
    requires w.viewer.seen <= r.viewer.seen && |w.viewer.events| <= |r.viewer.events|
    requires w.viewer.seen == RecordSet(w.viewer.events) ==> r.viewer.seen == RecordSet(r.viewer.events)
    requires w.position[d] <= r.position[d]
    ensures Exhausted(w, js, d) ==> Exhausted(r, js, d)
    ensures Tracking(w, d) && r.position[d] == w.position[d] ==> Tracking(r, d)
  {
    if Exhausted(w, js, d) {
      forall q | r.position[d] <= q < |Stream(r, js, d)|
        ensures Stream(r, js, d)[q].record in r.viewer.seen
      {
        assert Stream(w, js, d)[q].record in w.viewer.seen;
      }
    }
  }

  /** One delivery on a calm connection: it repeats something seen or extends the panel by one. */
  lemma NextDelivers(w: World, js: Journals, c: nat)
    requires Stamped(js) && InStep(w, js) && Legal(w, js, Next(c))
    ensures var v, r := w.viewer, Act(w, js, Next(c));
            && PanelRight(r, js) && v.seen <= r.viewer.seen && |v.events| <= |r.viewer.events|
            && (v.seen == RecordSet(v.events) ==> r.viewer.seen == RecordSet(r.viewer.events))
            && (Tracking(w, c) ==> Tracking(r, c))
  {
    assert Tracking(w, c) || Exhausted(w, js, c);
    if Tracking(w, c) {
      DeliveryStaysOnTrack(w.viewer, js(w.job), c, w.position[c]);
    }
  }

  lemma NextStaysInStep(w: World, js: Journals, c: nat)
    requires Stamped(js) && InStep(w, js) && Legal(w, js, Next(c))
    ensures InStep(Act(w, js, Next(c)), js)
  {
    var r := Act(w, js, Next(c));
    NextDelivers(w, js, c);
    forall d | 0 <= d < |r.position| && IsOpen(r, d)
      ensures Tracking(r, d) || Exhausted(r, js, d)
    {
      assert IsOpen(w, d);
      assert Tracking(w, d) || Exhausted(w, js, d);
      CalmKept(w, r, js, d);
    }
  }

  /** Drops, resends, overlapping reattaches and deliveries keep the page in step. */
  lemma NetworkStaysInStep(w: World, js: Journals, a: Action)
    requires Stamped(js) && InStep(w, js) && Legal(w, js, a) && Network(a)
    ensures InStep(Act(w, js, a), js)
  {
    var r := Act(w, js, a);
    if a.Next? {
      NextStaysInStep(w, js, a.c);
    } else {
      forall d | 0 <= d < |r.position| && IsOpen(r, d)
        ensures Tracking(r, d) || Exhausted(r, js, d)
      {
        if d < |w.position| {
          assert IsOpen(w, d);
          assert Tracking(w, d) || Exhausted(w, js, d);
          CalmKept(w, r, js, d);
        }
      }
    }
  }

  lemma {:induction false} NetworkRunStaysInStep(w: World, js: Journals, actions: seq<Action>)
    requires Stamped(js) && InStep(w, js) && LegalRun(w, js, actions) && AllNetwork(actions)
    ensures InStep(Play(w, js, actions), js)
    decreases |actions|
  {
    if actions != [] {
      NetworkStaysInStep(w, js, actions[0]);
      NetworkRunStaysInStep(Act(w, js, actions[0]), js, actions[1..]);
    }
  }

  // ---- resets ----

  /** Every reset of the run leaves only connections that are calm. */
  predicate Orderly(w: World, js: Journals, actions: seq<Action>)
    requires Wired(w) && LegalRun(w, js, actions)
    decreases |actions|
  {
    actions == [] ||
    (var next := Act(w, js, actions[0]);
     (Network(actions[0]) || Calm(next, js)) && Orderly(next, js, actions[1..]))
  }

  /** From here on, whatever the network does, the panel is right. */
  ghost predicate RightForever(w: World, js: Journals)
    requires Wired(w)
  {
    forall actions | AllNetwork(actions) && LegalRun(w, js, actions) :: PanelRight(Play(w, js, actions), js)
  }

  /** At every point of the run. */
  ghost predicate AlwaysRight(w: World, js: Journals, actions: seq<Action>)
    requires Wired(w) && LegalRun(w, js, actions)
    decreases |actions|
  {
    RightForever(w, js) && (actions == [] || AlwaysRight(Act(w, js, actions[0]), js, actions[1..]))
  }

  /** A reset empties the panel, so only the open connections decide whether the page is in step. */
  lemma ResetIsRight(w: World, js: Journals, a: Action)
    requires InStep(w, js) && Legal(w, js, a) && !Network(a)
    ensures InStep(Act(w, js, a), js) <==> Calm(Act(w, js, a), js)
  {}

  lemma InStepIsRight(w: World, js: Journals)
    requires Stamped(js) && InStep(w, js)
    ensures RightForever(w, js)
  {
    forall actions | AllNetwork(actions) && LegalRun(w, js, actions)
      ensures PanelRight(Play(w, js, actions), js)
    {
      NetworkRunStaysInStep(w, js, actions);
    }
  }

  /** A connection that skips what the page has seen and then delivers something new. */
  lemma {:induction false} NextNewEntry(w: World, js: Journals, c: nat) returns (actions: seq<Action>, q: nat)
    requires Wired(w) && IsOpen(w, c) && !Exhausted(w, js, c) && Stamped(js)
    ensures AllNetwork(actions) && LegalRun(w, js, actions)
    ensures w.position[c] <= q < |Stream(w, js, c)| && Stream(w, js, c)[q].record !in w.viewer.seen
    ensures var r := Play(w, js, actions);
            r.job == w.job && r.viewer.events == w.viewer.events + [Stream(w, js, c)[q]]
    decreases |Stream(w, js, c)| - w.position[c]
  {
    var p := w.position[c];
    var next := Act(w, js, Next(c));
    if Stream(w, js, c)[p].record in w.viewer.seen {
      assert next.viewer == w.viewer;
      var rest;
      rest, q := NextNewEntry(next, js, c);
      actions := [Next(c)] + rest;
      assert actions[1..] == rest;
    } else {
      actions, q := [Next(c)], p;
      assert actions[1..] == [];
    }
  }

  /** A reset that leaves a connection with something new to say: some continuation spoils the panel. */
  lemma StraySpoils(w: World, js: Journals, a: Action)
    requires Stamped(js) && InStep(w, js) && Legal(w, js, a) && !Network(a) && !Calm(Act(w, js, a), js)
    ensures !RightForever(Act(w, js, a), js)
  {
    var r := Act(w, js, a);
    var c :| 0 <= c < |r.position| && IsOpen(r, c) && !Tracking(r, c) && !Exhausted(r, js, c);
    var actions, q := NextNewEntry(r, js, c);
    NewEntryIsWrong(w, js, a, c, q);
    var after := Play(r, js, actions);
    assert after.viewer.events[0] == Stream(r, js, c)[q];
    assert !PanelRight(after, js);
  }

  lemma NewEntryIsWrong(w: World, js: Journals, a: Action, c: nat, q: nat)
    requires Stamped(js) && InStep(w, js) && Legal(w, js, a) && !Network(a)
    requires var r := Act(w, js, a);
             && c < |r.position| && IsOpen(r, c) && !Tracking(r, c) && !Exhausted(r, js, c)
             && r.position[c] <= q < |Stream(r, js, c)| && Stream(r, js, c)[q].record !in r.viewer.seen
    ensures var r := Act(w, js, a);
            r.viewer.events == [] && (js(r.job) != [] ==> js(r.job)[0] != Stream(r, js, c)[q])
  {
    var r := Act(w, js, a);
    if a.Idle? {
      IdleKeepsExhausted(w, js, c);
      CalmAt(w, js, c);
      if w.viewer.events != [] { FirstIsSeen(w, js); }
    } else if r == w {
      CalmAt(w, js, c);
    }
  }

  lemma CalmAt(w: World, js: Journals, c: nat)
    requires Wired(w) && Calm(w, js) && IsOpen(w, c)
    ensures Tracking(w, c) || Exhausted(w, js, c)
  {}

  lemma IdleKeepsExhausted(w: World, js: Journals, c: nat)
    requires Wired(w) && c < |w.position|
    ensures var r := Act(w, js, Idle);
            && (Exhausted(w, js, c) <==> Exhausted(r, js, c)) && (IsOpen(w, c) <==> IsOpen(r, c))
            && Stream(r, js, c) == Stream(w, js, c) && r.viewer.seen == w.viewer.seen
  {
    var r := Act(w, js, Idle);
    assert Stream(r, js, c) == Stream(w, js, c);
  }

  lemma FirstIsSeen(w: World, js: Journals)
    requires Stamped(js) && PanelRight(w, js) && w.viewer.events != []
    ensures w.viewer.events[0] == js(w.job)[0] && js(w.job)[0].record in RecordSet(w.viewer.events)
  {
    assert w.viewer.events[0].record == js(w.job)[0].record != "";
  }

  lemma {:induction false} AlwaysRightExactly(w: World, js: Journals, actions: seq<Action>)
    requires Stamped(js) && InStep(w, js) && LegalRun(w, js, actions)
    ensures AlwaysRight(w, js, actions) <==> Orderly(w, js, actions)
    decreases |actions|
  {
    InStepIsRight(w, js);
    if actions != [] {
      var a := actions[0];
      var next := Act(w, js, a);
      if Network(a) {
        NetworkStaysInStep(w, js, a);
        AlwaysRightExactly(next, js, actions[1..]);
      } else {
        ResetIsRight(w, js, a);
        if Calm(next, js) {
          AlwaysRightExactly(next, js, actions[1..]);
        } else {
          StraySpoils(w, js, a);
        }
      }
    }
  }

  /**
   For every run from an empty page (jobs followed in any order, idle resets, drops, overlaps,
   resends): at every point, and whatever the network does next, the panel is the beginning of the
   followed job's journal exactly when each reset leaves open only connections that track the
   emptied panel or have nothing new left to deliver.
   */
  lemma PanelRightExactly(js: Journals, actions: seq<Action>)
    requires Stamped(js) && LegalRun(START, js, actions)
    ensures AlwaysRight(START, js, actions) <==> Orderly(START, js, actions)
  {
    AlwaysRightExactly(START, js, actions);
  }

  lemma {:induction false} OrderlyStaysInStep(w: World, js: Journals, actions: seq<Action>)
    requires Stamped(js) && InStep(w, js) && LegalRun(w, js, actions) && Orderly(w, js, actions)
    ensures InStep(Play(w, js, actions), js)
    decreases |actions|
  {
    if actions != [] {
      if Network(actions[0]) {
        NetworkStaysInStep(w, js, actions[0]);
      } else {
        ResetIsRight(w, js, actions[0]);
      }
      OrderlyStaysInStep(Act(w, js, actions[0]), js, actions[1..]);
    }
  }

  function EventsOf(entries: seq<Entry>): (r: seq<Event>)
    ensures |r| == |entries|
  {
    seq(|entries|, k requires 0 <= k < |entries| => entries[k].event)
  }

  /**
   After every orderly run the page holds a duplicate-free prefix of the followed job's journal and
   therefore shows the digest and the cost of that prefix, each cost event counted once.
   */
  lemma JournalPrefix(js: Journals, actions: seq<Action>)
    requires Stamped(js) && LegalRun(START, js, actions) && Orderly(START, js, actions)
    ensures var w := Play(START, js, actions);
            var v, journal := w.viewer, js(w.job);
            && v.events <= journal
            && (v.jobId != "" ==> v.jobId == w.job && v.seen == RecordSet(v.events))
            && (forall j, k | 0 <= j < k < |v.events| :: v.events[j].record != v.events[k].record)
            && DigestOf(EventsOf(v.events)) == DigestOf(EventsOf(journal)[..|v.events|])
            && DigestOf(EventsOf(v.events)).costUsd == TotalUsd(EventsOf(journal)[..|v.events|])
  {
    OrderlyStaysInStep(START, js, actions);
    var w := Play(START, js, actions);
    var v, journal := w.viewer, js(w.job);
    assert v.events == journal[..|v.events|];
    assert EventsOf(v.events) == EventsOf(journal)[..|v.events|];
    CostIsTotal(EventsOf(v.events));
    forall j, k | 0 <= j < k < |v.events|
      ensures v.events[j].record != v.events[k].record
    {
      assert v.events[j] == journal[j] && v.events[k] == journal[k];
    }
  }

  // ---- one followed job ----

  function Opened(js: Journals, job: string): (w: World)
    requires job != ""
    ensures Wired(w)
  {
    Act(START, js, Open(job))
  }

  /** In step, and no open connection is ahead of the panel. */
  predicate OnTrack(w: World, js: Journals) {
    InStep(w, js) && w.viewer.seen == RecordSet(w.viewer.events)
    && forall c | 0 <= c < |w.position| && IsOpen(w, c) :: Tracking(w, c)
  }

  lemma NetworkStaysOnTrack(w: World, js: Journals, a: Action)
    requires Stamped(js) && OnTrack(w, js) && Legal(w, js, a) && Network(a)
    ensures OnTrack(Act(w, js, a), js)
  {
    var r := Act(w, js, a);
    NetworkStaysInStep(w, js, a);
    if a.Next? { NextDelivers(w, js, a.c); }
    forall d | 0 <= d < |r.position| && IsOpen(r, d)
      ensures Tracking(r, d)
    {
      if d < |w.position| {
        assert IsOpen(w, d);
        CalmKept(w, r, js, d);
      }
    }
  }

  lemma {:induction false} NetworkRunStaysOnTrack(w: World, js: Journals, actions: seq<Action>)
    requires Stamped(js) && OnTrack(w, js) && LegalRun(w, js, actions) && AllNetwork(actions)
    ensures OnTrack(Play(w, js, actions), js) && Play(w, js, actions).job == w.job
    decreases |actions|
  {
    if actions != [] {
      NetworkStaysOnTrack(w, js, actions[0]);
      NetworkRunStaysOnTrack(Act(w, js, actions[0]), js, actions[1..]);
    }
  }

  /** A run in which some open connection reached the end of the journal shows the whole journal. */
  lemma CaughtUpShowsAll(js: Journals, job: string, actions: seq<Action>, c: nat)
    requires job != "" && Stamped(js) && LegalRun(Opened(js, job), js, actions) && AllNetwork(actions)
    requires var w := Play(Opened(js, job), js, actions);
             IsOpen(w, c) && w.position[c] == |js(job)|
    ensures Play(Opened(js, job), js, actions).viewer.events == js(job)
  {
    NetworkRunStaysOnTrack(Opened(js, job), js, actions);
    var w := Play(Opened(js, job), js, actions);
    assert Tracking(w, c);
  }

  /** No terminal event before the last entry: the shape of a journal that one connection can finish. */
  predicate EndsOnce(journal: seq<Entry>) {
    forall k | 0 <= k < |journal| - 1 :: !journal[k].event.Terminal?
  }

  function Messages(n: nat): (r: seq<Action>)
    ensures AllNetwork(r)
  {
    seq(n, _ => Next(0))
  }

  lemma {:induction false} ReplayDeliversAll(w: World, js: Journals, done: nat)
    requires Stamped(js) && OnTrack(w, js) && EndsOnce(js(w.job)) && done <= |js(w.job)|
    requires w.viewer.events == js(w.job)[..done] && |w.position| == 1 && w.position[0] == done
    requires w.viewer.connections[0].job == w.job && (done < |js(w.job)| ==> IsOpen(w, 0))
    ensures LegalRun(w, js, Messages(|js(w.job)| - done))
    ensures Play(w, js, Messages(|js(w.job)| - done)).viewer.events == js(w.job)
    decreases |js(w.job)| - done
  {
    var journal := js(w.job);
    if done < |journal| {
      var next := Act(w, js, Next(0));
      NetworkStaysOnTrack(w, js, Next(0));
      DeliveryStaysOnTrack(w.viewer, journal, 0, done);
      ReplayDeliversAll(next, js, done + 1);
      assert Messages(|journal| - done)[1..] == Messages(|journal| - done - 1);
    }
  }

  /**
   Replay and live tail agree: any run that ends with all entries, however often it was cut, shows
   the digest that one uninterrupted replay of the finished journal shows.
   */
  lemma LiveTailEqualsReplay(js: Journals, job: string, actions: seq<Action>)
    requires job != "" && Stamped(js) && EndsOnce(js(job)) && AllNetwork(actions)
    requires LegalRun(Opened(js, job), js, actions)
    requires |Play(Opened(js, job), js, actions).viewer.events| == |js(job)|
    ensures LegalRun(Opened(js, job), js, Messages(|js(job)|))
    ensures DigestOf(EventsOf(Play(Opened(js, job), js, actions).viewer.events))
            == DigestOf(EventsOf(Play(Opened(js, job), js, Messages(|js(job)|)).viewer.events))
  {
    NetworkRunStaysOnTrack(Opened(js, job), js, actions);
    assert Play(Opened(js, job), js, actions).viewer.events == js(job);
    ReplayDeliversAll(Opened(js, job), js, 0);
  }

  // ---- stamps ----

  /** Only this job has a journal. */
  function Single(job: string, journal: seq<Entry>): Journals {
    (j: string) => if j == job then journal else []
  }

  /** No two entries share a stamp; a missing stamp is no stamp. */
  predicate DistinctStamps(journal: seq<Entry>) {
    forall j, k | 0 <= j < k < |journal| && journal[j].record != "" :: journal[j].record != journal[k].record
  }

  /** One connection can get as far as entry `k`: nothing before it ends the stream. */
  predicate Streamed(journal: seq<Entry>, k: nat) {
    k < |journal| && forall j | 0 <= j < k :: !journal[j].event.Terminal?
  }

  /** Every entry that can be resent carries a stamp: those that a stream reaches and survives. */
  predicate StampedWhereResent(journal: seq<Entry>) {
    forall k | 0 <= k < |journal| && Streamed(journal, k) && !journal[k].event.Terminal? :: journal[k].record != ""
  }

  /** Nothing that is still alive has delivered a terminal entry. */
  predicate Unended(w: World, journal: seq<Entry>) {
    && |w.viewer.events| <= |journal| && w.viewer.seen == RecordSet(w.viewer.events)
    && forall k | 0 <= k < |w.viewer.events| :: !journal[k].event.Terminal?
  }

  /** One followed job whose page has at most one connection open or one timer armed. */
  predicate Sole(w: World, job: string, journal: seq<Entry>) {
    && Wired(w) && w.job == job != "" && (w.viewer.jobId == job || w.viewer.jobId == "")
    && (forall c | 0 <= c < |w.position| :: w.viewer.connections[c].job == job)
    && w.viewer.events <= journal
    && (w.timers == [] || (w.timers == [job] && Unended(w, journal)))
    && forall c | 0 <= c < |w.position| && IsOpen(w, c) ::
         c == |w.position| - 1 && w.timers == [] && w.position[c] <= |w.viewer.events| && Unended(w, journal)
         && !w.viewer.connections[c].ended
  }

  lemma NextStaysSole(w: World, job: string, journal: seq<Entry>, c: nat)
    requires DistinctStamps(journal) && StampedWhereResent(journal) && Sole(w, job, journal)
    requires Legal(w, Single(job, journal), Next(c))
    ensures Sole(Act(w, Single(job, journal), Next(c)), job, journal)
  {
    var at := w.position[c];
    assert IsOpen(w, c) && Stream(w, Single(job, journal), c) == journal;
    assert Streamed(journal, at);
    forall j | 0 <= j < at
      ensures journal[j].record != ""
    {
      assert Streamed(journal, j);
    }
    if journal[at].record != "" {
      DeliveryStaysOnTrack(w.viewer, journal, c, at);
    } else {
      assert journal[at].event.Terminal? && at == |w.viewer.events|;
      assert w.viewer.events + [journal[at]] == journal[..at + 1];
    }
  }

  lemma NetworkStaysSole(w: World, job: string, journal: seq<Entry>, a: Action)
    requires DistinctStamps(journal) && StampedWhereResent(journal) && Sole(w, job, journal)
    requires Legal(w, Single(job, journal), a) && Network(a)
    ensures Sole(Act(w, Single(job, journal), a), job, journal)
  {
    if a.Next? {
      NextStaysSole(w, job, journal, a.c);
    } else if a.Fire? {
      assert w.timers == [job] && w.timers[..0] + w.timers[1..] == [];
    } else if a.Cut? {
      assert [] + [job] == [job] && w.timers + [] == w.timers;
    }
  }

  lemma {:induction false} NetworkRunStaysSole(w: World, job: string, journal: seq<Entry>, actions: seq<Action>)
    requires DistinctStamps(journal) && StampedWhereResent(journal) && Sole(w, job, journal)
    requires LegalRun(w, Single(job, journal), actions) && AllNetwork(actions)
    ensures Sole(Play(w, Single(job, journal), actions), job, journal)
    decreases |actions|
  {
    if actions != [] {
      NetworkStaysSole(w, job, journal, actions[0]);
      NetworkRunStaysSole(Act(w, Single(job, journal), actions[0]), job, journal, actions[1..]);
    }
  }

  /** The page follows `w.job` over its newest connection, which is open. */
  predicate Streaming(w: World) {
    && Wired(w) && w.viewer.jobId == w.job != "" && |w.position| > 0 && w.timers == []
    && var c := |w.position| - 1;
       IsOpen(w, c) && w.viewer.connections[c].job == w.job && !w.viewer.connections[c].ended
  }

  /** The only connection has delivered the first `m` entries. */
  predicate StreamedTo(w: World, job: string, journal: seq<Entry>, m: nat) {
    && Streaming(w) && w.job == job && w.position == [m] && m <= |journal| && w.viewer.events == journal[..m]
    && w.viewer.seen == RecordSet(w.viewer.events)
  }

  lemma StreamsOne(w: World, js: Journals, job: string, m: nat)
    requires StreamedTo(w, job, js(job), m) && m < |js(job)| && DistinctStamps(js(job))
    requires forall k | 0 <= k <= m :: js(job)[k].record != "" && !js(job)[k].event.Terminal?
    ensures LegalRun(w, js, [Next(0)]) && StreamedTo(Play(w, js, [Next(0)]), job, js(job), m + 1)
  {
    assert Stream(w, js, 0) == js(job);
    DeliveryStaysOnTrack(w.viewer, js(job), 0, m);
    PlayCons(w, js, Next(0), []);
    assert [Next(0)] + [] == [Next(0)];
  }

  lemma MoreMessages(m: nat)
    requires m > 0
    ensures Messages(m) == Messages(m - 1) + [Next(0)]
  {}

  /** One connection delivers a stamped beginning of the journal that does not end the stream. */
  lemma {:induction false} StreamsPrefix(js: Journals, job: string, m: nat)
    requires job != "" && m <= |js(job)| && DistinctStamps(js(job))
    requires forall k | 0 <= k < m :: js(job)[k].record != "" && !js(job)[k].event.Terminal?
    ensures LegalRun(Opened(js, job), js, Messages(m))
    ensures StreamedTo(Play(Opened(js, job), js, Messages(m)), job, js(job), m)
  {
    if m > 0 {
      StreamsPrefix(js, job, m - 1);
      StreamsOne(Play(Opened(js, job), js, Messages(m - 1)), js, job, m - 1);
      PlayConcat(Opened(js, job), js, Messages(m - 1), [Next(0)]);
      MoreMessages(m);
    } else {
      assert Messages(0) == [];
    }
  }

  /** The newest connection drops, its timer fires, and the server resends one entry. */
  lemma PlayTwo(w: World, js: Journals, a: Action, b: Action)
    requires Wired(w) && Legal(w, js, a) && Legal(Act(w, js, a), js, b)
    ensures LegalRun(w, js, [a, b]) && Play(w, js, [a, b]) == Act(Act(w, js, a), js, b)
  {
    PlayCons(Act(w, js, a), js, b, []);
    PlayCons(w, js, a, [b]);
    assert [a] + [b] == [a, b] && [b] + [] == [b];
  }

  lemma PlayThree(w: World, js: Journals, a: Action, b: Action, c: Action)
    requires Wired(w) && Legal(w, js, a) && Legal(Act(w, js, a), js, b) && Legal(Act(Act(w, js, a), js, b), js, c)
    ensures LegalRun(w, js, [a, b, c]) && Play(w, js, [a, b, c]) == Act(Act(Act(w, js, a), js, b), js, c)
  {
    var first := Act(w, js, a);
    var second := Act(first, js, b);
    PlayCons(second, js, c, []);
    PlayCons(first, js, b, [c]);
    PlayCons(w, js, a, [b, c]);
    assert [a] + [b, c] == [a, b, c] && [b] + [c] == [b, c] && [c] + [] == [c];
  }

  /** The newest connection drops and its timer attaches another one from `at`. */
  function Redial(w: World, at: nat): seq<Action>
    requires |w.position| > 0
  {
    [Cut(|w.position| - 1), Fire(0, at)]
  }

  function Resend(w: World, at: nat): (r: seq<Action>)
    requires |w.position| > 0
    ensures AllNetwork(r)
  {
    Redial(w, at) + [Next(|w.position|)]
  }

  lemma TimerFollowsDrop(w: World, js: Journals, at: nat)
    requires Streaming(w) && at <= |w.viewer.events|
    ensures Legal(w, js, Cut(|w.position| - 1))
    ensures var dropped := Act(w, js, Cut(|w.position| - 1));
            && Legal(dropped, js, Fire(0, at))
            && var r := Act(dropped, js, Fire(0, at));
               && Streaming(r) && r.job == w.job && r.viewer.events == w.viewer.events
               && r.position == w.position + [at]
  {
    DropArms(w, js);
    TimerReattaches(Act(w, js, Cut(|w.position| - 1)), js, at);
  }

  lemma Redialed(w: World, js: Journals, at: nat)
    requires Streaming(w) && at <= |w.viewer.events|
    ensures LegalRun(w, js, Redial(w, at))
    ensures var r := Play(w, js, Redial(w, at));
            && Streaming(r) && r.job == w.job && r.viewer.events == w.viewer.events && r.position == w.position + [at]
  {
    TimerFollowsDrop(w, js, at);
    PlayTwo(w, js, Cut(|w.position| - 1), Fire(0, at));
  }

  /** An unstamped entry is appended whatever the page holds. */
  lemma BlankAppends(w: World, js: Journals, at: nat)
    requires Streaming(w) && w.position[|w.position| - 1] == at < |js(w.job)|
    requires js(w.job)[at].record == "" && !js(w.job)[at].event.Terminal?
    ensures var c := |w.position| - 1;
            && Legal(w, js, Next(c))
            && var r := Act(w, js, Next(c));
               Streaming(r) && r.job == w.job && r.viewer.events == w.viewer.events + [js(w.job)[at]]
  {
    assert Stream(w, js, |w.position| - 1) == js(w.job);
  }

  lemma ResendOne(w: World, js: Journals, at: nat)
    requires Streaming(w) && at <= |w.viewer.events| && at < |js(w.job)|
    requires js(w.job)[at].record == "" && !js(w.job)[at].event.Terminal?
    ensures LegalRun(w, js, Resend(w, at))
    ensures var r := Play(w, js, Resend(w, at));
            Streaming(r) && r.job == w.job && r.viewer.events == w.viewer.events + [js(w.job)[at]]
  {
    Redialed(w, js, at);
    var attached := Play(w, js, Redial(w, at));
    BlankAppends(attached, js, at);
    PlayCons(attached, js, Next(|w.position|), []);
    PlayConcat(w, js, Redial(w, at), [Next(|w.position|)]);
    assert [Next(|w.position|)] + [] == [Next(|w.position|)];
  }

  lemma DropArms(w: World, js: Journals)
    requires Streaming(w)
    ensures var r := Act(w, js, Cut(|w.position| - 1));
            && r.timers == [w.job] && r.job == w.job && r.position == w.position
            && r.viewer.jobId == w.viewer.jobId && r.viewer.events == w.viewer.events && r.viewer.seen == w.viewer.seen
  {
    assert [] + [w.job] == [w.job];
  }

  lemma TimerReattaches(w: World, js: Journals, at: nat)
    requires Wired(w) && w.timers == [w.job] && w.viewer.jobId == w.job != "" && at <= |w.viewer.events|
    ensures Legal(w, js, Fire(0, at))
    ensures var r := Act(w, js, Fire(0, at));
            && r.timers == [] && r.job == w.job && r.position == w.position + [at] && IsOpen(r, |w.position|)
            && r.viewer == w.viewer.(connections := w.viewer.connections + [Connection(w.job, false, false)])
            && Streaming(r)
  {
    assert w.timers[..0] + w.timers[1..] == [];
  }

  /** An unstamped entry is appended as often as it is resent. */
  lemma {:induction false} ResendRepeats(w: World, js: Journals, at: nat, times: nat) returns (actions: seq<Action>)
    requires Streaming(w) && at <= |w.viewer.events| && at < |js(w.job)|
    requires js(w.job)[at].record == "" && !js(w.job)[at].event.Terminal?
    ensures AllNetwork(actions) && LegalRun(w, js, actions)
    ensures Play(w, js, actions).job == w.job && |Play(w, js, actions).viewer.events| == |w.viewer.events| + times
    decreases times
  {
    if times == 0 {
      actions := [];
    } else {
      ResendOne(w, js, at);
      var next := Play(w, js, Resend(w, at));
      var rest := ResendRepeats(next, js, at, times - 1);
      actions := Resend(w, at) + rest;
      PlayConcat(w, js, Resend(w, at), rest);
    }
  }

  /**
   For a job whose stamps are distinct, every run of drops, timers and resends keeps the panel right
   exactly when every entry that can be resent is stamped: an entry that ends its stream, or that no
   stream reaches, needs no stamp.
   */
  lemma StampsNeededExactly(job: string, journal: seq<Entry>)
    requires job != "" && DistinctStamps(journal)
    ensures RightForever(Opened(Single(job, journal), job), Single(job, journal)) <==> StampedWhereResent(journal)
  {
    var js := Single(job, journal);
    var w := Opened(js, job);
    if StampedWhereResent(journal) {
      forall actions | AllNetwork(actions) && LegalRun(w, js, actions)
        ensures PanelRight(Play(w, js, actions), js)
      {
        NetworkRunStaysSole(w, job, journal, actions);
      }
    } else {
      var k := FirstUnstamped(journal);
      StreamsPrefix(js, job, k);
      var reached := Play(w, js, Messages(k));
      var more := ResendRepeats(reached, js, k, |journal| + 1);
      PlayConcat(w, js, Messages(k), more);
      assert AllNetwork(Messages(k) + more);
      assert !PanelRight(Play(w, js, Messages(k) + more), js);
    }
  }

  lemma FirstUnstamped(journal: seq<Entry>) returns (k: nat)
    requires !StampedWhereResent(journal)
    ensures Streamed(journal, k) && !journal[k].event.Terminal? && journal[k].record == ""
    ensures forall j | 0 <= j < k :: journal[j].record != ""
  {
    var i :| 0 <= i < |journal| && Streamed(journal, i) && !journal[i].event.Terminal? && journal[i].record == "";
    k := 0;
    while journal[k].record != ""
      invariant k <= i && forall j | 0 <= j < k :: journal[j].record != ""
      decreases i - k
    {
      k := k + 1;
    }
  }

  // ---- two runs that are not orderly ----

  /** The idle reset leaves the connection open: the next entry lands in the emptied panel. */
  lemma IdlePanelLeaks(job: string, e: Entry, f: Entry)
    requires job != "" && e.record != "" && f.record != "" && e.record != f.record && !e.event.Terminal?
    ensures var js := Single(job, [e, f]);
            var run := [Next(0), Idle, Next(0)];
            && LegalRun(Opened(js, job), js, run)
            && Play(Opened(js, job), js, run).viewer.events == [f]
            && !PanelRight(Play(Opened(js, job), js, run), js)
  {
    var js := Single(job, [e, f]);
    var w := Opened(js, job);
    var first := Act(w, js, Next(0));
    var idle := Act(first, js, Idle);
    assert Stream(w, js, 0) == [e, f] && Stream(idle, js, 0) == [e, f];
    var last := Act(idle, js, Next(0));
    PlayThree(w, js, Next(0), Idle, Next(0));
    assert last.viewer.events == [f];
  }

  /**
   A drop, an idle reset and a late timer leave two connections to a reopened job; following another
   job closes only the newest, and the older one writes its entry into the other job's panel.
   */
  lemma StrayConnectionLeaks(js: Journals, a: string, b: string)
    requires a != "" && b != "" && a != b && js(a) != []
    ensures var run := [Cut(0), Idle, Open(a)] + [Fire(0, 0), Open(b), Next(1)];
            && LegalRun(Opened(js, a), js, run)
            && Play(Opened(js, a), js, run).job == b
            && Play(Opened(js, a), js, run).viewer.events == [js(a)[0]]
  {
    var w := Opened(js, a);
    var reopened := Reopened(w, js, a);
    OlderWrites(reopened, js, a, b);
    PlayConcat(w, js, [Cut(0), Idle, Open(a)], [Fire(0, 0), Open(b), Next(1)]);
  }

  lemma OlderWrites(w: World, js: Journals, a: string, b: string)
    requires a != "" && b != "" && a != b && js(a) != [] && Wired(w) && w.timers == [a] && w.job == w.viewer.jobId == a
    requires w.viewer.events == [] && w.position == [0, 0] && IsOpen(w, 1) && w.viewer.connections[1].job == a
    ensures LegalRun(w, js, [Fire(0, 0), Open(b), Next(1)])
    ensures var r := Play(w, js, [Fire(0, 0), Open(b), Next(1)]); r.job == b && r.viewer.events == [js(a)[0]]
  {
    TimerReattaches(w, js, 0);
    var overlapping := Act(w, js, Fire(0, 0));
    var other := Act(overlapping, js, Open(b));
    assert IsOpen(other, 1) && Stream(other, js, 1) == js(a) && other.position[1] == 0;
    PlayThree(w, js, Fire(0, 0), Open(b), Next(1));
  }

  /** The dropped connection's timer is still armed when the same job is opened again. */
  lemma Reopened(w: World, js: Journals, a: string) returns (r: World)
    requires a != "" && w == Opened(js, a)
    ensures LegalRun(w, js, [Cut(0), Idle, Open(a)]) && r == Play(w, js, [Cut(0), Idle, Open(a)])
    ensures Wired(r) && r.timers == [a] && r.job == r.viewer.jobId == a && r.viewer.events == [] && r.viewer.seen == {}
    ensures r.position == [0, 0] && IsOpen(r, 1) && r.viewer.connections[1].job == a
  {
    DropArms(w, js);
    PlayThree(w, js, Cut(0), Idle, Open(a));
    r := Play(w, js, [Cut(0), Idle, Open(a)]);
  }
}
