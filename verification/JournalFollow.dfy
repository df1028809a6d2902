/**
 Following one job after another (`follow`, `attachStream` and the reconnect timer in
 public/dominion-lenses.js): at most one connection is ever open, and the panel is always right.
 */
module JournalFollow {
  import opened BuildJournal
  import opened JournalRuns

  /** How many timers are armed for this job. */
  function Armed(timers: seq<string>, job: string): nat {
    if timers == [] then 0 else Armed(timers[..|timers| - 1], job) + if timers[|timers| - 1] == job then 1 else 0
  }

  /** No idle reset, and no job is opened anew while a timer is armed for it. */
  predicate Polite(w: World, js: Journals, actions: seq<Action>)
    requires Wired(w) && LegalRun(w, js, actions)
    decreases |actions|
  {
    actions == [] ||
    (&& PoliteStep(w, actions[0])
     && Polite(Act(w, js, actions[0]), js, actions[1..]))
  }

  predicate PoliteStep(w: World, a: Action) {
    && !a.Idle?
    && (a.Open? && a.job != w.viewer.jobId ==> forall t | 0 <= t < |w.timers| :: w.timers[t] != a.job)
  }

  /** Only the newest connection can be open, and then it streams the followed job. */
  predicate OneOpen(w: World)
    requires Wired(w)
  {
    forall c | 0 <= c < |w.position| && IsOpen(w, c) ::
      c == |w.position| - 1 && w.viewer.connections[c].job == w.viewer.jobId != ""
  }

  predicate AlwaysOneOpen(w: World, js: Journals, actions: seq<Action>)
    requires Wired(w) && LegalRun(w, js, actions)
    decreases |actions|
  {
    OneOpen(w) && (actions == [] || AlwaysOneOpen(Act(w, js, actions[0]), js, actions[1..]))
  }

  /** The followed job has an open connection or one armed timer, never both and never two. */
  predicate OneStream(w: World) {
    && Wired(w) && OneOpen(w)
    && (w.viewer.jobId != "" ==>
          Armed(w.timers, w.viewer.jobId) <=
          if exists c :: 0 <= c < |w.position| && IsOpen(w, c) then 0 else 1)
  }

  lemma {:induction false} ArmedConcat(a: seq<string>, b: seq<string>, job: string)
    ensures Armed(a + b, job) == Armed(a, job) + Armed(b, job)
    decreases |b|
  {
    if b == [] {
      assert a + b == a;
    } else {
      ArmedConcat(a, b[..|b| - 1], job);
      assert (a + b)[..|a + b| - 1] == a + b[..|b| - 1];
    }
  }

  lemma ArmedOne(x: string, job: string)
    ensures Armed([x], job) == if x == job then 1 else 0
  {
    assert [x][..0] == [];
  }

  lemma ArmedWithout(timers: seq<string>, t: nat, job: string)
    requires t < |timers|
    ensures Armed(timers, job) ==
            Armed(timers[..t] + timers[t + 1..], job) + if timers[t] == job then 1 else 0
  {
    assert timers == timers[..t] + [timers[t]] + timers[t + 1..];
    ArmedConcat(timers[..t] + [timers[t]], timers[t + 1..], job);
    ArmedConcat(timers[..t], [timers[t]], job);
    ArmedOne(timers[t], job);
    ArmedConcat(timers[..t], timers[t + 1..], job);
  }

  lemma {:induction false} NoneArmed(timers: seq<string>, job: string)
    requires forall t | 0 <= t < |timers| :: timers[t] != job
    ensures Armed(timers, job) == 0
    decreases |timers|
  {
    if timers != [] { NoneArmed(timers[..|timers| - 1], job); }
  }

  // ---- every step ----

  lemma FireStaysOneStream(w: World, js: Journals, timer: nat, start: nat)
    requires OneStream(w) && Legal(w, js, Fire(timer, start))
    ensures OneStream(Act(w, js, Fire(timer, start)))
  {
    var r := Act(w, js, Fire(timer, start));
    ArmedWithout(w.timers, timer, w.viewer.jobId);
    if w.timers[timer] != "" && w.timers[timer] == w.viewer.jobId {
      assert forall c | 0 <= c < |w.position| :: !IsOpen(w, c);
      assert r.viewer.connections == w.viewer.connections + [Connection(w.viewer.jobId, false, false)];
      assert forall c | 0 <= c < |w.position| :: IsOpen(r, c) == IsOpen(w, c);
    } else {
      assert forall c | 0 <= c < |w.position| :: IsOpen(r, c) == IsOpen(w, c);
    }
  }

  lemma OpenStaysOneStream(w: World, js: Journals, job: string)
    requires OneStream(w) && PoliteStep(w, Open(job))
    ensures OneStream(Act(w, js, Open(job)))
  {
    if job != "" && job != w.viewer.jobId {
      NoneArmed(w.timers, job);
      var r := Act(w, js, Open(job));
      forall c | 0 <= c < |w.position|
        ensures !IsOpen(r, c)
      {
        assert IsOpen(w, c) ==> c == |w.position| - 1;
      }
    }
  }

  lemma CutStaysOneStream(w: World, js: Journals, c: nat)
    requires OneStream(w) && Legal(w, js, Cut(c))
    ensures OneStream(Act(w, js, Cut(c)))
  {
    var r := Act(w, js, Cut(c));
    var more := if Retries(w, c) then [w.viewer.connections[c].job] else [];
    ArmedConcat(w.timers, more, w.viewer.jobId);
    if more != [] { ArmedOne(more[0], w.viewer.jobId); }
    assert forall d | 0 <= d < |w.position| :: IsOpen(r, d) == (d != c && IsOpen(w, d));
    assert IsOpen(w, c) ==> forall d | 0 <= d < |w.position| && d != c :: !IsOpen(w, d);
  }

  lemma MessageStaysOneStream(w: World, js: Journals, a: Action)
    requires OneStream(w) && Legal(w, js, a) && (a.Next? || a.Vanish?)
    ensures OneStream(Act(w, js, a))
  {
    var r := Act(w, js, a);
    assert forall d | 0 <= d < |w.position| :: IsOpen(r, d) ==> IsOpen(w, d);
    assert forall d | 0 <= d < |w.position| :: r.viewer.connections[d].job == w.viewer.connections[d].job;
    assert IsOpen(w, a.c);
    if a.Vanish? {
      assert forall d | 0 <= d < |w.position| && d != a.c :: !IsOpen(w, d);
    }
  }

  lemma StepStaysOneStream(w: World, js: Journals, a: Action)
    requires OneStream(w) && Legal(w, js, a) && PoliteStep(w, a)
    ensures OneStream(Act(w, js, a))
  {
    match a {
      case Fire(timer, start) => FireStaysOneStream(w, js, timer, start);
      case Next(_) => MessageStaysOneStream(w, js, a);
      case Cut(c) => CutStaysOneStream(w, js, c);
      case Vanish(_) => MessageStaysOneStream(w, js, a);
      case Open(job) => OpenStaysOneStream(w, js, job);
    }
  }

  /** Following another job closes the connection to the one before. */
  lemma FollowingIsCalm(w: World, js: Journals, job: string)
    requires OneStream(w) && InStep(w, js) && PoliteStep(w, Open(job))
    ensures Calm(Act(w, js, Open(job)), js)
  {
    var r := Act(w, js, Open(job));
    OpenStaysOneStream(w, js, job);
    if job != "" && job != w.viewer.jobId {
      forall c | 0 <= c < |r.position| && IsOpen(r, c)
        ensures Tracking(r, c) || Exhausted(r, js, c)
      {
        assert c == |r.position| - 1;
      }
    }
  }

  lemma {:induction false} PoliteRunsFrom(w: World, js: Journals, actions: seq<Action>)
    requires Stamped(js) && OneStream(w) && InStep(w, js) && LegalRun(w, js, actions) && Polite(w, js, actions)
    ensures AlwaysOneOpen(w, js, actions) && Orderly(w, js, actions)
    decreases |actions|
  {
    if actions != [] {
      var a := actions[0];
      StepStaysOneStream(w, js, a);
      if a.Open? {
        FollowingIsCalm(w, js, a.job);
        ResetIsRight(w, js, a);
      } else {
        NetworkStaysInStep(w, js, a);
      }
      PoliteRunsFrom(Act(w, js, a), js, actions[1..]);
    }
  }

  /**
   For every run from an empty page that follows any jobs in any order, with drops, timers, resends
   and jobs that vanish, in which no job is opened anew while its own timer is still armed: at every
   point only the newest connection can be open, it streams the followed job, and whatever the
   network does next the panel is the beginning of that job's journal.
   */
  lemma FollowingStaysRight(js: Journals, actions: seq<Action>)
    requires Stamped(js) && LegalRun(START, js, actions) && Polite(START, js, actions)
    ensures AlwaysOneOpen(START, js, actions) && AlwaysRight(START, js, actions)
  {
    PoliteRunsFrom(START, js, actions);
    PanelRightExactly(js, actions);
  }

  /** After the server has disowned a job, following it again opens a new stream from the start. */
  lemma VanishedJobReopens(w: World, js: Journals, c: nat, job: string)
    requires Wired(w) && Legal(w, js, Vanish(c)) && job != ""
    ensures var r := Act(Act(w, js, Vanish(c)), js, Open(job));
            && r.viewer.jobId == r.job == job && r.viewer.events == [] && r.viewer.seen == {}
            && r.position == w.position + [0] && IsOpen(r, |w.position|)
            && r.viewer.connections[|w.position|].job == job
  {}
}
