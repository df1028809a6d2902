/**
 The consent gate and the analytics queue behind it (gamefactorykit/ports.js).
 Events tracked without consent wait in a bounded queue; a grant flushes the queue into the
 sink, a revoke or a clear throws it away.
 */
module ConsentPort {
  const PENDING_CAP: nat := 200

  datatype Event = Event(name: string, props: map<string, string>, at: int)

  datatype Call = Track(event: Event) | Grant | Revoke | ClearQueue

  datatype Gate = Gate(granted: bool, queue: seq<Event>, sink: seq<Event>)

  function LastOf<T>(n: nat, xs: seq<T>): seq<T> {
    if |xs| > n then xs[|xs| - n..] else xs
  }

  function Initial(granted: bool): Gate {
    Gate(granted, [], [])
  }

  function Step(g: Gate, c: Call): Gate {
    match c
    case Track(e) =>
      if g.granted then g.(sink := g.sink + [e]) else g.(queue := LastOf(PENDING_CAP, g.queue + [e]))
    case Grant => if g.granted then g else Gate(true, [], g.sink + g.queue)
    case Revoke => g.(granted := false, queue := [])
    case ClearQueue => g.(queue := [])
  }

  function Run(granted: bool, h: seq<Call>): Gate {
    if h == [] then Initial(granted) else Step(Run(granted, h[..|h| - 1]), h[|h| - 1])
  }

  /** The port object. Its fields are the closure variables of `createPorts`. */
  class Ports {
    var consentGranted: bool
    var pending: seq<Event>
    var sink: seq<Event>
    const initiallyGranted: bool
    ghost var history: seq<Call>

    ghost predicate Valid()
      reads this
    {
      Gate(consentGranted, pending, sink) == Run(initiallyGranted, history)
    }

    constructor (granted: bool)
      ensures Valid() && history == [] && initiallyGranted == granted
      ensures consentGranted == granted && pending == [] && sink == []
    {
      consentGranted, pending, sink := granted, [], [];
      initiallyGranted := granted;
      history := [];
    }

    ghost predicate Logged(before: seq<Call>, c: Call)
      reads this
    {
      history == before + [c] && history[..|history| - 1] == before
    }

    method Track(name: string, props: map<string, string>, at: int) returns (event: Event)
      requires Valid()
      modifies this
      ensures Valid() && event == Event(name, props, at) && Logged(old(history), Call.Track(event))
    {
      event := Event(name, props, at);
      if consentGranted {
        sink := sink + [event];
      } else {
        pending := pending + [event];
        if |pending| > PENDING_CAP {
          pending := pending[|pending| - PENDING_CAP..];
        }
      }
      history := history + [Call.Track(event)];
    }

    method GrantConsent()
      requires Valid()
      modifies this
      ensures Valid() && Logged(old(history), Grant)
    {
      history := history + [Grant];
      assert history[..|history| - 1] == old(history);
      if consentGranted {
        return;
      }
      consentGranted := true;
      if |pending| > 0 {
        sink := sink + pending;
        pending := [];
      }
    }

    method RevokeConsent()
      requires Valid()
      modifies this
      ensures Valid() && Logged(old(history), Revoke)
    {
      consentGranted := false;
      pending := [];
      history := history + [Revoke];
    }

    method ClearPending()
      requires Valid()
      modifies this
      ensures Valid() && Logged(old(history), ClearQueue)
    {
      pending := [];
      history := history + [ClearQueue];
    }
  }

  // ---- what the history alone says about the state ----

  /** Consent is decided by the last grant or revoke. */
  predicate GrantedAfter(granted: bool, h: seq<Call>) {
    if h == [] then granted
    else
      match h[|h| - 1]
      case Grant => true
      case Revoke => false
      case Track(_) => GrantedAfter(granted, h[..|h| - 1])
      case ClearQueue => GrantedAfter(granted, h[..|h| - 1])
  }

  /** How many calls at the end of the history are `track` calls. */
  function TrailingTracks(h: seq<Call>): (n: nat)
    ensures n <= |h|
    ensures forall k | |h| - n <= k < |h| :: h[k].Track?
    ensures n < |h| ==> !h[|h| - n - 1].Track?
  {
    if h != [] && h[|h| - 1].Track? then TrailingTracks(h[..|h| - 1]) + 1 else 0
  }

  function EventsOf(h: seq<Call>): seq<Event>
    requires forall c | c in h :: c.Track?
  {
    seq(|h|, i requires 0 <= i < |h| => h[i].event)
  }

  function Min(a: nat, b: nat): nat { if a < b then a else b }

  /**
   While consent is denied the queue holds exactly the last min(200, k) of the k events tracked
   since the last call that emptied it; once granted it is empty.
   */
  lemma {:induction false} QueueFromHistory(granted: bool, h: seq<Call>)
    ensures Run(granted, h).granted == GrantedAfter(granted, h)
    ensures Run(granted, h).granted ==> Run(granted, h).queue == []
    ensures !Run(granted, h).granted ==> Run(granted, h).queue == QueuedEvents(h)
    decreases |h|
  {
    if h == [] || !h[|h| - 1].Track? {
      NothingQueued(h);
    }
    if h != [] {
      QueueFromHistory(granted, h[..|h| - 1]);
      if h[|h| - 1].Track? {
        QueueGrows(h);
      }
    }
  }

  /** Every call but a track empties the queue. */
  lemma NothingQueued(h: seq<Call>)
    requires h == [] || !h[|h| - 1].Track?
    ensures QueuedEvents(h) == []
  {
    assert TrailingTracks(h) == 0 && h[|h|..] == [];
  }

  /** The events of the last min(200, k) of the k track calls that end the history. */
  function QueuedEvents(h: seq<Call>): seq<Event> {
    EventsOf(h[|h| - Min(200, TrailingTracks(h))..])
  }

  /** One more denied track: append, then drop the oldest beyond the cap. */
  lemma QueueGrows(h: seq<Call>)
    requires h != [] && h[|h| - 1].Track?
    ensures QueuedEvents(h) == LastOf(PENDING_CAP, QueuedEvents(h[..|h| - 1]) + [h[|h| - 1].event])
  {
    var before := h[..|h| - 1];
    assert TrailingTracks(h) == TrailingTracks(before) + 1;
  }

  /** Call `i` tracked without consent, and call `g` is the grant that flushes it. */
  predicate FlushedBy(granted: bool, h: seq<Call>, i: nat, g: nat)
    requires i < |h|
  {
    && i < g < |h| && h[g].Grant? && g - i <= 200
    && !GrantedAfter(granted, h[..i])
    && forall k | i <= k < g :: h[k].Track?
  }

  /** The event of call `i` has been delivered by the end of `h`. */
  predicate Delivered(granted: bool, h: seq<Call>, i: nat)
    requires i < |h|
  {
    && h[i].Track?
    && (GrantedAfter(granted, h[..i]) || exists g | i < g < |h| :: FlushedBy(granted, h, i, g))
  }

  function Range(lo: nat, hi: nat): (r: seq<nat>)
    requires lo <= hi
    ensures |r| == hi - lo && forall k | 0 <= k < |r| :: r[k] == lo + k
  {
    seq(hi - lo, k requires 0 <= k < hi - lo => lo + k)
  }

  /** The calls whose events one more call moves into the sink. */
  function Added(granted: bool, before: seq<Call>, c: Call): seq<nat> {
    if c.Track? && GrantedAfter(granted, before) then [|before|]
    else if c.Grant? && !GrantedAfter(granted, before) then
      Range(|before| - Min(PENDING_CAP, TrailingTracks(before)), |before|)
    else []
  }

  /** The calls whose events are in the sink, in sink order. */
  function SinkCalls(granted: bool, h: seq<Call>): seq<nat> {
    if h == [] then [] else
      var before := h[..|h| - 1];
      SinkCalls(granted, before) + Added(granted, before, h[|h| - 1])
  }

  ghost predicate Increasing(s: seq<nat>, bound: nat) {
    && (forall k | 0 <= k < |s| :: s[k] < bound)
    && (forall j, k | 0 <= j < k < |s| :: s[j] < s[k])
  }

  lemma IncreasingConcat(s: seq<nat>, t: seq<nat>, bound: nat)
    requires Increasing(s, bound) && Increasing(t, bound)
    requires forall j, k | 0 <= j < |s| && 0 <= k < |t| :: s[j] < t[k]
    ensures Increasing(s + t, bound)
  {}

  lemma {:induction false} DeliveredGrows(granted: bool, h: seq<Call>, i: nat)
    requires i < |h| - 1
    ensures Delivered(granted, h, i) <==>
              (Delivered(granted, h[..|h| - 1], i) || FlushedBy(granted, h, i, |h| - 1))
  {
    var before := h[..|h| - 1];
    assert h[..i] == before[..i];
    forall g | i < g < |before|
      ensures FlushedBy(granted, h, i, g) <==> FlushedBy(granted, before, i, g)
    {}
    if Delivered(granted, h, i) && !GrantedAfter(granted, h[..i]) {
      var g :| i < g < |h| && FlushedBy(granted, h, i, g);
      assert g == |h| - 1 || FlushedBy(granted, before, i, g);
    }
  }

  lemma {:induction false} DeniedThroughTracks(granted: bool, h: seq<Call>, i: nat)
    requires i <= |h| && forall k | i <= k < |h| :: h[k].Track?
    ensures GrantedAfter(granted, h) == GrantedAfter(granted, h[..i])
    decreases |h|
  {
    if i < |h| {
      var before := h[..|h| - 1];
      DeniedThroughTracks(granted, before, i);
      assert before[..i] == h[..i];
    } else {
      assert h[..i] == h;
    }
  }

  /** Nothing that is still queued has been delivered. */
  lemma QueuedIsUndelivered(granted: bool, h: seq<Call>, i: nat)
    requires i < |h| && !GrantedAfter(granted, h) && |h| - TrailingTracks(h) <= i
    ensures !GrantedAfter(granted, h[..i]) && !Delivered(granted, h, i)
  {
    DeniedThroughTracks(granted, h, i);
  }

  /** A grant flushes exactly the queued calls. */
  lemma FlushedExactly(granted: bool, h: seq<Call>, i: nat)
    requires i < |h| - 1
    ensures var before := h[..|h| - 1];
            FlushedBy(granted, h, i, |h| - 1)
            <==> h[|h| - 1].Grant? && !GrantedAfter(granted, before)
                 && |before| - Min(PENDING_CAP, TrailingTracks(before)) <= i
  {
    var before := h[..|h| - 1];
    assert before[..i] == h[..i];
    if forall k | i <= k < |before| :: before[k].Track? {
      DeniedThroughTracks(granted, before, i);
    }
  }

  lemma AddedMembers(granted: bool, h: seq<Call>, i: nat)
    requires i < |h|
    ensures i in Added(granted, h[..|h| - 1], h[|h| - 1])
            <==> if i == |h| - 1 then h[i].Track? && GrantedAfter(granted, h[..i])
                 else FlushedBy(granted, h, i, |h| - 1)
  {
    var n := |h| - 1;
    var before := h[..n];
    if i < n {
      FlushedExactly(granted, h, i);
    }
    if h[n].Grant? && !GrantedAfter(granted, before) {
      var kept := Min(PENDING_CAP, TrailingTracks(before));
      var range := Range(n - kept, n);
      if n - kept <= i < n {
        assert range[i - (n - kept)] == i;
      }
    }
  }

  /** `SinkCalls` lists every delivered call. */
  lemma {:induction false} SinkCallsAreDelivered(granted: bool, h: seq<Call>, i: nat)
    requires i < |h|
    ensures i in SinkCalls(granted, h) <==> Delivered(granted, h, i)
    decreases |h|
  {
    var before := h[..|h| - 1];
    SinkCallsIncrease(granted, before);
    AddedMembers(granted, h, i);
    if i < |before| {
      SinkCallsAreDelivered(granted, before, i);
      DeliveredGrows(granted, h, i);
    }
  }

  /** `SinkCalls` never repeats a call and keeps their order. */
  lemma {:induction false} SinkCallsIncrease(granted: bool, h: seq<Call>)
    ensures Increasing(SinkCalls(granted, h), |h|)
    decreases |h|, 0
  {
    if h != [] {
      var n := |h| - 1;
      var before := h[..n];
      var earlier := SinkCalls(granted, before);
      SinkCallsIncrease(granted, before);
      if h[n].Grant? && !GrantedAfter(granted, before) {
        var kept := Min(PENDING_CAP, TrailingTracks(before));
        forall j | 0 <= j < |earlier|
          ensures earlier[j] < n - kept
        {
          SinkCallsAreDelivered(granted, before, earlier[j]);
          if n - kept <= earlier[j] {
            QueuedIsUndelivered(granted, before, earlier[j]);
          }
        }
        IncreasingConcat(earlier, Range(n - kept, n), |h|);
      }
    }
  }

  predicate AllTracks(h: seq<Call>, s: seq<nat>) {
    forall k | 0 <= k < |s| :: s[k] < |h| && h[s[k]].Track?
  }

  function Pick(h: seq<Call>, s: seq<nat>): seq<Event>
    requires AllTracks(h, s)
  {
    seq(|s|, k requires 0 <= k < |s| => h[s[k]].event)
  }

  /**
   The sink is the delivered events in track order: an event reaches it exactly when it was
   tracked with consent, or was followed by fewer than 200 further tracks and then a grant.
   */
  lemma {:induction false} SinkFromHistory(granted: bool, h: seq<Call>)
    ensures Increasing(SinkCalls(granted, h), |h|)
    ensures forall i | 0 <= i < |h| :: i in SinkCalls(granted, h) <==> Delivered(granted, h, i)
    ensures AllTracks(h, SinkCalls(granted, h))
    ensures Run(granted, h).sink == Pick(h, SinkCalls(granted, h))
  {
    SinkCallsIncrease(granted, h);
    forall i | 0 <= i < |h|
      ensures i in SinkCalls(granted, h) <==> Delivered(granted, h, i)
    {
      SinkCallsAreDelivered(granted, h, i);
    }
    SinkPicked(granted, h);
  }

  lemma {:induction false} SinkPicked(granted: bool, h: seq<Call>)
    ensures AllTracks(h, SinkCalls(granted, h))
    ensures Run(granted, h).sink == Pick(h, SinkCalls(granted, h))
    decreases |h|
  {
    if h != [] {
      var before := h[..|h| - 1];
      SinkPicked(granted, before);
      SinkStep(granted, h);
      PickExtends(h, SinkCalls(granted, before), Added(granted, before, h[|h| - 1]));
    }
  }

  lemma PickExtends(h: seq<Call>, s: seq<nat>, t: seq<nat>)
    requires h != [] && AllTracks(h[..|h| - 1], s) && AllTracks(h, t)
    ensures AllTracks(h, s + t) && Pick(h, s + t) == Pick(h[..|h| - 1], s) + Pick(h, t)
  {}

  /** What one call adds to the sink. */
  lemma SinkStep(granted: bool, h: seq<Call>)
    requires h != []
    ensures var before := h[..|h| - 1];
            var added := Added(granted, before, h[|h| - 1]);
            AllTracks(h, added) && Run(granted, h).sink == Run(granted, before).sink + Pick(h, added)
  {
    var n := |h| - 1;
    var before := h[..n];
    QueueFromHistory(granted, before);
    if h[n].Grant? && !GrantedAfter(granted, before) {
      FlushPicks(h);
    } else if h[n].Track? && GrantedAfter(granted, before) {
      PickOne(h);
    } else {
      PickNone(h, Run(granted, before).sink);
    }
  }

  lemma PickNone(h: seq<Call>, sink: seq<Event>)
    ensures Pick(h, []) == [] && sink + Pick(h, []) == sink
  {}

  lemma PickOne(h: seq<Call>)
    requires h != [] && h[|h| - 1].Track?
    ensures AllTracks(h, [|h| - 1]) && Pick(h, [|h| - 1]) == [h[|h| - 1].event]
  {}

  lemma FlushPicks(h: seq<Call>)
    requires h != []
    ensures var before := h[..|h| - 1];
            var flushed := Range(|before| - Min(PENDING_CAP, TrailingTracks(before)), |before|);
            AllTracks(h, flushed) && Pick(h, flushed) == QueuedEvents(before)
  {}

  /** An event still undelivered when consent is revoked stays undelivered in every continuation. */
  lemma RevokedStaysUndelivered(granted: bool, h: seq<Call>, i: nat, r: nat)
    requires i < r < |h| && h[r].Revoke?
    requires !Delivered(granted, h[..r], i)
    ensures !Delivered(granted, h, i)
  {
    assert h[..r][..i] == h[..i];
    forall g | i < g < |h|
      ensures !FlushedBy(granted, h, i, g)
    {
      if g < r {
        assert !FlushedBy(granted, h[..r], i, g);
      }
    }
  }
}
