/**
 The server between two devices: how chatsync.mjs merges a pushed chat into the stored one, and what
 two devices hold after both have pushed and pulled.
 */
module ServerRelay {
  import opened Sequences
  import opened ChatMerge
  import opened ChatLaws
  import opened WireConvergence
  import opened ChatPush

  function MessagesOf(f: Field): seq<Message> {
    if f.Some? && f.value.Messages? then f.value.messages else []
  }

  /** A transcript clock counts if it was set on purpose, or if no turn can get lost. */
  predicate TranscriptSafe(stored: Version, inc: Version)
    requires Shaped(stored) && Shaped(inc)
  {
    var had, has := MessagesOf(stored.transcript.fields[0]), MessagesOf(inc.transcript.fields[0]);
    inc.trusted || |has| > |had| || has == had
  }

  predicate TakesTranscript(stored: Version, inc: Version)
    requires Shaped(stored) && Shaped(inc)
  {
    Clock(inc, Transcript) > Clock(stored, Transcript) && TranscriptSafe(stored, inc)
  }

  function LatestClock(v: Version): int {
    Max(Max(Max(Clock(v, Transcript), Clock(v, Title)), Max(Clock(v, Model), Clock(v, Draft))), Clock(v, Forge))
  }

  /** `mergeChat` of the server: by component, with a guard on the transcript. */
  function ServerMerge(stored: Version, inc: Version): (r: Version)
    requires Shaped(stored) && Shaped(inc)
    ensures Shaped(r)
  {
    var takes := TakesTranscript(stored, inc);
    var transcript :=
      if takes then
        Register([Some(Messages(MessagesOf(inc.transcript.fields[0]))),
                  if inc.transcript.fields[1].Some? then inc.transcript.fields[1] else stored.transcript.fields[1]],
                 Clock(inc, Transcript))
      else stored.transcript;
    var m := Version(stored.id, transcript, TakeReg(stored, inc, Title), TakeReg(stored, inc, Model),
                     TakeReg(stored, inc, Draft), TakeReg(stored, inc, Forge),
                     Max(stored.updatedAt, inc.updatedAt), Max(stored.activityAt, inc.activityAt),
                     if takes then inc.trusted else stored.trusted);
    m.(updatedAt := Max(m.updatedAt, LatestClock(m)))
  }

  /** The transcript field of a chat holds messages. */
  predicate Talks(v: Version)
    requires Shaped(v)
  {
    v.transcript.fields[0].Some? && v.transcript.fields[0].value.Messages?
  }

  lemma TakenTranscript(stored: Version, inc: Version)
    requires Clean(stored) && Clean(inc) && Talks(inc) && TakesTranscript(stored, inc)
    ensures ServerMerge(stored, inc).transcript == inc.transcript
  {
    assert CleanReg(stored.Reg(Transcript)) && CleanReg(inc.Reg(Transcript));
    assert inc.transcript.fields == [inc.transcript.fields[0], inc.transcript.fields[1]];
  }

  /** The server merges every register as a device does exactly when its transcript guard has nothing to object to. */
  lemma ServerMergesLikeDevice(stored: Version, inc: Version)
    requires Clean(stored) && Clean(inc) && Talks(inc)
    ensures (forall k: Component :: ServerMerge(stored, inc).Reg(k) == Merge(stored, inc).Reg(k))
            <==> inc.transcript.clock <= stored.transcript.clock || inc.trusted
                 || |MessagesOf(inc.transcript.fields[0])| > |MessagesOf(stored.transcript.fields[0])|
                 || MessagesOf(inc.transcript.fields[0]) == MessagesOf(stored.transcript.fields[0])
    ensures var m := ServerMerge(stored, inc);
            m.trusted == if m.transcript.clock == stored.transcript.clock then stored.trusted else inc.trusted
  {
    CleanMerge(stored, inc);
    assert CleanReg(stored.Reg(Transcript)) && CleanReg(inc.Reg(Transcript));
    assert Merge(stored, inc).Reg(Transcript).clock == Max(stored.transcript.clock, inc.transcript.clock);
    if TakesTranscript(stored, inc) {
      TakenTranscript(stored, inc);
    }
    OtherRegs(stored, inc);
    var m := ServerMerge(stored, inc);
    if inc.transcript.clock <= stored.transcript.clock || TranscriptSafe(stored, inc) {
      assert m.Reg(Transcript) == Merge(stored, inc).Reg(Transcript);
    } else {
      assert m.Reg(Transcript).clock != Merge(stored, inc).Reg(Transcript).clock;
    }
  }

  lemma OtherRegs(stored: Version, inc: Version)
    requires Shaped(stored) && Shaped(inc)
    ensures forall k: Component | k != Transcript :: ServerMerge(stored, inc).Reg(k) == Merge(stored, inc).Reg(k)
  {}

  /** The guard lets this push through. */
  predicate Welcomed(stored: Version, inc: Version)
    requires Shaped(stored) && Shaped(inc)
  {
    inc.transcript.clock <= stored.transcript.clock || TranscriptSafe(stored, inc)
  }

  /** What the server stores after a welcome push: in each component the newer register. */
  lemma PushStored(stored: Version, a: Version, k: Component)
    requires Clean(stored) && Clean(a) && Talks(a) && Welcomed(stored, ForPush(a))
    ensures Clean(ForPush(a)) && Clean(ServerMerge(stored, ForPush(a)))
    ensures ServerMerge(stored, ForPush(a)).Reg(k)
            == if a.Reg(k).clock > stored.Reg(k).clock then WireReg(a, k) else stored.Reg(k)
  {
    var p := ForPush(a);
    PushTwice(a, k);
    assert Talks(p);
    ServerMergesLikeDevice(stored, p);
    CleanMerge(stored, p);
    WireFollowsReg(a, a, k);
    forall j: Component
      ensures CleanReg(ServerMerge(stored, p).Reg(j))
    {
      assert CleanReg(Merge(stored, p).Reg(j));
    }
  }

  /** Two devices push, the server merges both, and both pull what it then stores. */
  function Relayed(s: Version, a: Version, b: Version): Version
    requires Shaped(s) && Shaped(a) && Shaped(b)
  {
    ServerMerge(ServerMerge(s, ForPush(a)), ForPush(b))
  }

  predicate Exchange(s: Version, a: Version, b: Version) {
    && Clean(s) && Clean(a) && Clean(b) && Talks(a) && Talks(b)
    && Welcomed(s, ForPush(a)) && Welcomed(ServerMerge(s, ForPush(a)), ForPush(b))
  }

  /** The stored chat is at least as new as both devices, and equals one of the three on the wire. */
  lemma RelayedReg(s: Version, a: Version, b: Version, k: Component)
    requires Exchange(s, a, b)
    ensures var m := Relayed(s, a, b);
            && Clean(m) && m.Reg(k).clock >= a.Reg(k).clock && m.Reg(k).clock >= b.Reg(k).clock
            && (exists v :: v in [s, a, b] && v.Reg(k).clock == m.Reg(k).clock && WireReg(v, k) == WireReg(m, k))
  {
    var first := ServerMerge(s, ForPush(a));
    PushStored(s, a, k);
    PushStored(first, b, k);
    var m := Relayed(s, a, b);
    assert s in [s, a, b] && a in [s, a, b] && b in [s, a, b];
    WireFollowsReg(a, a, k);
    WireFollowsReg(b, b, k);
    if b.Reg(k).clock > first.Reg(k).clock {
      SameOnWireReg(ForPush(b), m, b, k);
    } else if a.Reg(k).clock > s.Reg(k).clock {
      SameOnWireReg(ForPush(a), m, a, k);
    } else {
      WireFollowsReg(s, m, k);
    }
  }

  lemma SameOnWireReg(p: Version, m: Version, v: Version, k: Component)
    requires Clean(v) && Clean(m) && p == ForPush(v) && m.Reg(k) == p.Reg(k)
    ensures WireReg(m, k) == WireReg(v, k) && m.Reg(k).clock == v.Reg(k).clock
  {
    PushTwice(v, k);
    WireFollowsReg(p, m, k);
    WireFollowsReg(v, v, k);
  }

  /**
   After both devices have pushed and pulled they hold the same chat in every component, up to the
   pixels each keeps for itself, whatever either of them edited before.
   */
  lemma PushAndPullConverge(s: Version, a: Version, b: Version, k: Component)
    requires Exchange(s, a, b) && AllClean([s, a, b]) && AgreeOnWire([s, a, b])
    ensures var m := Relayed(s, a, b); WireReg(Merge(a, m), k) == WireReg(Merge(b, m), k)
  {
    var m := Relayed(s, a, b);
    RelayedReg(s, a, b, k);
    CleanMerge(a, m);
    CleanMerge(b, m);
    PulledReg(s, a, b, a, m, k);
    PulledReg(s, a, b, b, m, k);
  }

  lemma PulledReg(s: Version, a: Version, b: Version, c: Version, m: Version, k: Component)
    requires AllClean([s, a, b]) && AgreeOnWire([s, a, b]) && c in [s, a, b] && Clean(c) && Clean(m)
    requires m.Reg(k).clock >= c.Reg(k).clock
    requires exists v :: v in [s, a, b] && v.Reg(k).clock == m.Reg(k).clock && WireReg(v, k) == WireReg(m, k)
    ensures WireReg(Merge(c, m), k) == WireReg(m, k)
  {
    CleanMerge(c, m);
    WireFollowsReg(c, Merge(c, m), k);
    WireFollowsReg(m, Merge(c, m), k);
  }

  // ---- what the two devices show ----

  lemma ForgedMerge(c: Version, inc: Version)
    requires Clean(c) && Clean(inc) && Forged(c) && Forged(inc)
    ensures Forged(Merge(c, inc))
  {
    CleanMerge(c, inc);
    assert Merge(c, inc).Reg(Forge) == Merge(c, inc).forge && c.Reg(Forge) == c.forge && inc.Reg(Forge) == inc.forge;
  }

  lemma ForgedServerMerge(stored: Version, inc: Version)
    requires Clean(stored) && Clean(inc) && Forged(stored) && Forged(inc)
    ensures Forged(ServerMerge(stored, inc))
  {
    ForgedMerge(stored, inc);
    OtherRegs(stored, inc);
    assert ServerMerge(stored, inc).Reg(Forge) == Merge(stored, inc).Reg(Forge);
  }

  /**
   After both devices have pushed and pulled, they show the same title, model, draft and forge, and
   transcripts that differ in nothing but the pixels each keeps for itself.
   */
  lemma PushAndPullShowSame(s: Version, a: Version, b: Version, k: Component)
    requires Exchange(s, a, b) && AllClean([s, a, b]) && AgreeOnWire([s, a, b])
    requires Forged(s) && Forged(a) && Forged(b)
    ensures var m := Relayed(s, a, b); AlikeReg(Merge(a, m), Merge(b, m), k)
  {
    var m := Relayed(s, a, b);
    PushAndPullConverge(s, a, b, k);
    PushStored(s, a, k);
    PushStored(ServerMerge(s, ForPush(a)), b, k);
    ForgedServerMerge(s, ForPush(a));
    ForgedServerMerge(ServerMerge(s, ForPush(a)), ForPush(b));
    CleanMerge(a, m);
    CleanMerge(b, m);
    ForgedMerge(a, m);
    ForgedMerge(b, m);
    WireSameExactly(Merge(a, m), Merge(b, m), k);
  }

  /** An edit of the transcript on a device passes the server's guard whatever is stored. */
  lemma TranscriptEditIsWelcome(stored: Version, c: Version, fields: seq<Field>, at: int)
    requires Shaped(stored) && Shaped(c) && |fields| == 2
    ensures Shaped(Edited(c, Transcript, fields, at)) && Welcomed(stored, ForPush(Edited(c, Transcript, fields, at)))
    ensures forall k: Component | k != Transcript :: Touch(c, k, at).trusted == c.trusted
  {}

  /** What the server stores never has a component clock beyond its `updatedAt`, and loses no stamp. */
  lemma MergedIsBounded(stored: Version, inc: Version)
    requires Shaped(stored) && Shaped(inc)
    ensures var m := ServerMerge(stored, inc);
            && (forall k: Component :: m.Reg(k).clock <= m.updatedAt)
            && m.updatedAt >= stored.updatedAt && m.updatedAt >= inc.updatedAt
            && m.activityAt == Max(stored.activityAt, inc.activityAt)
  {
    var m := ServerMerge(stored, inc);
    forall k: Component
      ensures m.Reg(k).clock <= m.updatedAt
    {
      assert m.Reg(k).clock <= ClockOf(m.Reg(k).clock, Max(stored.updatedAt, inc.updatedAt)) || m.Reg(k).clock <= 0;
    }
  }
}
