/**
 When two joins of different collections of versions are the same chat, and when they are the same
 up to the image pixels that a push leaves behind (public/app.js).
 */
module WireConvergence {
  import opened ChatMerge
  import opened ChatLaws

  /** Something in the collection is at least as new in this component. */
  predicate CaughtUpOn(seen: seq<Version>, c: Version, k: Component) {
    exists v :: v in seen && v.Reg(k).clock >= c.Reg(k).clock
  }

  /** The same for the stamps and the trust flag. */
  predicate CaughtUpRest(seen: seq<Version>, c: Version) {
    && (exists v :: v in seen && v.updatedAt >= c.updatedAt)
    && (exists v :: v in seen && v.activityAt >= c.activityAt)
    && (c.trusted ==> exists v :: v in seen && v.trusted)
  }

  predicate CaughtUp(seen: seq<Version>, c: Version) {
    CaughtUpRest(seen, c) && forall k: Component :: CaughtUpOn(seen, c, k)
  }

  // ---- equal values ----

  /** Given agreement, two joins hold one register exactly when each side has caught up with the other. */
  lemma RegsMeetExactly(r: Version, s: Version, vs: seq<Version>, ws: seq<Version>, k: Component)
    requires NewestReg(r.Reg(k), vs, k) && NewestReg(s.Reg(k), ws, k) && Agree(vs + ws)
    ensures r.Reg(k) == s.Reg(k) <==> CaughtUpOn(vs, s, k) && CaughtUpOn(ws, r, k)
  {
    var a :| a in vs && a.Reg(k) == r.Reg(k);
    var b :| b in ws && b.Reg(k) == s.Reg(k);
    assert a in vs + ws && b in vs + ws;
  }

  lemma RestMeetsExactly(r: Version, s: Version, vs: seq<Version>, ws: seq<Version>)
    requires IsJoin(r, vs) && IsJoin(s, ws)
    ensures r.updatedAt == s.updatedAt && r.activityAt == s.activityAt && r.trusted == s.trusted
            <==> CaughtUpRest(vs, s) && CaughtUpRest(ws, r)
  {
    var a :| a in vs && a.updatedAt == r.updatedAt;
    var b :| b in ws && b.updatedAt == s.updatedAt;
    var c :| c in vs && c.activityAt == r.activityAt;
    var d :| d in ws && d.activityAt == s.activityAt;
  }

  /**
   The joins of any two collections of versions of one chat are the same chat exactly when each
   collection has caught up with the other join, in every component, stamp and flag.
   */
  lemma JoinsMeetExactly(r: Version, s: Version, vs: seq<Version>, ws: seq<Version>)
    requires IsJoin(r, vs) && IsJoin(s, ws) && Agree(vs + ws)
    ensures r == s <==> CaughtUp(vs, s) && CaughtUp(ws, r)
  {
    forall k: Component
      ensures r.Reg(k) == s.Reg(k) <==> CaughtUpOn(vs, s, k) && CaughtUpOn(ws, r, k)
    {
      assert NewestReg(r.Reg(k), vs, k) && NewestReg(s.Reg(k), ws, k);
      RegsMeetExactly(r, s, vs, ws, k);
    }
    RestMeetsExactly(r, s, vs, ws);
    SameId(r, s, vs, ws);
    if CaughtUp(vs, s) && CaughtUp(ws, r) { SameRegs(r, s); }
  }

  lemma SameId(r: Version, s: Version, vs: seq<Version>, ws: seq<Version>)
    requires IsJoin(r, vs) && IsJoin(s, ws) && forall a, b | a in vs + ws && b in vs + ws :: a.id == b.id
    ensures r.id == s.id
  {
    var a :| a in vs && a.id == r.id;
    var b :| b in ws && b.id == s.id;
    assert a in vs + ws && b in vs + ws;
  }

  // ---- equal up to pixels ----

  /** A component as a push carries it. */
  function WireReg(v: Version, k: Component): Register
    requires Shaped(v)
  {
    ForPush(v).Reg(k)
  }

  /** One chat; equal component clocks mean equal values on the wire. */
  predicate AgreeOnWire(vs: seq<Version>)
    requires AllClean(vs)
  {
    && (forall a, b | a in vs && b in vs :: a.id == b.id)
    && forall a, b, k: Component | a in vs && b in vs && a.Reg(k).clock == b.Reg(k).clock ::
         WireReg(a, k) == WireReg(b, k)
  }

  /** A push carries the clocks of a clean chat, and its fields depend on the register alone. */
  lemma WireFollowsReg(a: Version, b: Version, k: Component)
    requires Clean(a) && Clean(b)
    ensures WireReg(a, k).clock == a.Reg(k).clock
    ensures a.Reg(k) == b.Reg(k) ==> WireReg(a, k) == WireReg(b, k)
  {
    assert CleanReg(a.Reg(k)) && CleanReg(b.Reg(k));
  }

  lemma WireRegsMeetExactly(r: Version, s: Version, vs: seq<Version>, ws: seq<Version>, k: Component)
    requires Clean(r) && Clean(s) && AllClean(vs) && AllClean(ws)
    requires NewestReg(r.Reg(k), vs, k) && NewestReg(s.Reg(k), ws, k)
    requires AllClean(vs + ws) && AgreeOnWire(vs + ws)
    ensures WireReg(r, k) == WireReg(s, k) <==> CaughtUpOn(vs, s, k) && CaughtUpOn(ws, r, k)
  {
    var a :| a in vs && a.Reg(k) == r.Reg(k);
    var b :| b in ws && b.Reg(k) == s.Reg(k);
    assert a in vs + ws && b in vs + ws;
    WireFollowsReg(a, r, k);
    WireFollowsReg(b, s, k);
    WireFollowsReg(r, s, k);
  }

  /** The same chat but for pixels. */
  predicate SameOnWire(r: Version, s: Version)
    requires Shaped(r) && Shaped(s)
  {
    && r.id == s.id && r.updatedAt == s.updatedAt && r.activityAt == s.activityAt && r.trusted == s.trusted
    && forall k: Component :: WireReg(r, k) == WireReg(s, k)
  }

  /** The same theorem up to pixels, for collections that agree only on the wire. */
  lemma JoinsMeetOnWireExactly(r: Version, s: Version, vs: seq<Version>, ws: seq<Version>)
    requires Clean(r) && Clean(s) && AllClean(vs) && AllClean(ws) && AllClean(vs + ws)
    requires IsJoin(r, vs) && IsJoin(s, ws) && AgreeOnWire(vs + ws)
    ensures SameOnWire(r, s) <==> CaughtUp(vs, s) && CaughtUp(ws, r)
  {
    forall k: Component
      ensures WireReg(r, k) == WireReg(s, k) <==> CaughtUpOn(vs, s, k) && CaughtUpOn(ws, r, k)
    {
      assert NewestReg(r.Reg(k), vs, k) && NewestReg(s.Reg(k), ws, k);
      WireRegsMeetExactly(r, s, vs, ws, k);
    }
    RestMeetsExactly(r, s, vs, ws);
    SameId(r, s, vs, ws);
  }

  lemma {:induction false} StripTwice(f: Field)
    ensures StripField(StripField(f)) == StripField(f)
  {
    if f.Some? && f.value.Messages? {
      var once := StripField(f).value.messages;
      var twice := StripField(StripField(f)).value.messages;
      forall i | 0 <= i < |once|
        ensures twice[i] == once[i]
      {
        assert twice[i].attachments == once[i].attachments;
      }
      assert twice == once;
    } else if f.None? {
      assert StripField(StripField(f)).value.messages == [];
    }
  }

  /** A push of a push is the same push. */
  lemma PushTwice(v: Version, k: Component)
    requires Clean(v)
    ensures Clean(ForPush(v)) && WireReg(ForPush(v), k) == WireReg(v, k)
  {
    StripTwice(v.transcript.fields[0]);
    forall j: Component
      ensures CleanReg(ForPush(v).Reg(j))
    {
      assert CleanReg(v.Reg(j));
    }
  }

  /** Agreement on values excludes a chat beside its own push as soon as a picture is in it. */
  lemma PixelsBreakAgreement(v: Version)
    requires Clean(v) && StripField(v.transcript.fields[0]) != v.transcript.fields[0]
    ensures !Agree([v, ForPush(v)]) && AllClean([v, ForPush(v)]) && AgreeOnWire([v, ForPush(v)])
  {
    var p := ForPush(v);
    assert v in [v, p] && p in [v, p];
    WireFollowsReg(v, v, Transcript);
    PushTwice(v, Transcript);
    assert v.Reg(Transcript).clock == p.Reg(Transcript).clock && v.Reg(Transcript) != p.Reg(Transcript);
    forall k: Component
      ensures WireReg(p, k) == WireReg(v, k)
    {
      PushTwice(v, k);
    }
  }

  /** Pushing a merge or merging the pushes: every register is the same. */
  lemma PushCommutesWithMerge(a: Version, b: Version, k: Component)
    requires Clean(a) && Clean(b)
    ensures WireReg(Merge(a, b), k) == Merge(ForPush(a), ForPush(b)).Reg(k)
  {
    CleanMerge(a, b);
    PushTwice(a, k);
    PushTwice(b, k);
    CleanMerge(ForPush(a), ForPush(b));
    WireFollowsReg(a, Merge(a, b), k);
    WireFollowsReg(b, Merge(a, b), k);
  }
}
