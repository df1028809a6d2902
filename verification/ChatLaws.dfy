/** What the merge of chat versions guarantees between devices (public/app.js). */
module ChatLaws {
  import opened Sequences
  import opened ChatMerge

  // ---- convergence ----

  predicate CleanReg(r: Register) {
    r.clock > 0 && r.fields != [] && forall i | 0 <= i < |r.fields| :: r.fields[i].Some?
  }

  /** Positive clocks and no undefined field. */
  predicate Clean(v: Version) {
    Shaped(v) && forall k: Component :: CleanReg(v.Reg(k))
  }

  predicate AllClean(vs: seq<Version>)
    ensures AllClean(vs) ==> forall v | v in vs :: Shaped(v)
  {
    forall v | v in vs :: Clean(v)
  }

  /** One chat; equal component clocks mean equal component values. */
  predicate Agree(vs: seq<Version>) {
    && (forall a, b | a in vs && b in vs :: a.id == b.id)
    && forall a, b, k: Component | a in vs && b in vs && a.Reg(k).clock == b.Reg(k).clock :: a.Reg(k) == b.Reg(k)
  }

  /** Fold the versions into the first one, in the given order. */
  function MergeAll(vs: seq<Version>): (r: Version)
    requires vs != [] && forall v | v in vs :: Shaped(v)
    ensures Shaped(r)
  {
    if |vs| == 1 then vs[0] else Merge(MergeAll(vs[..|vs| - 1]), vs[|vs| - 1])
  }

  predicate NewestReg(r: Register, vs: seq<Version>, k: Component) {
    && (exists v :: v in vs && v.Reg(k) == r)
    && forall v | v in vs :: v.Reg(k).clock <= r.clock
  }

  predicate NewestRegs(r: Version, vs: seq<Version>) {
    forall k: Component :: NewestReg(r.Reg(k), vs, k)
  }

  /** The join of a collection of versions: every part is the newest one that occurs. */
  predicate IsJoin(r: Version, vs: seq<Version>) {
    && (exists v :: v in vs && v.id == r.id)
    && NewestRegs(r, vs)
    && (exists v :: v in vs && v.updatedAt == r.updatedAt) && (forall v | v in vs :: v.updatedAt <= r.updatedAt)
    && (exists v :: v in vs && v.activityAt == r.activityAt) && (forall v | v in vs :: v.activityAt <= r.activityAt)
    && (r.trusted <==> exists v :: v in vs && v.trusted)
  }

  lemma CleanTake(local: Register, localUpdated: int, inc: Register, incUpdated: int)
    requires CleanReg(local) && CleanReg(inc) && |local.fields| == |inc.fields|
    ensures Take(local, localUpdated, inc, incUpdated) == if inc.clock > local.clock then inc else local
  {
    assert inc.fields[0].Some?;
    assert Overlay(local.fields, inc.fields) == inc.fields;
  }

  lemma CleanMerge(m: Version, inc: Version)
    requires Clean(m) && Clean(inc)
    ensures Clean(Merge(m, inc))
    ensures forall k: Component ::
              Merge(m, inc).Reg(k) == if inc.Reg(k).clock > m.Reg(k).clock then inc.Reg(k) else m.Reg(k)
  {
    forall k: Component
      ensures Merge(m, inc).Reg(k) == if inc.Reg(k).clock > m.Reg(k).clock then inc.Reg(k) else m.Reg(k)
    {
      assert CleanReg(m.Reg(k)) && CleanReg(inc.Reg(k));
      CleanTake(m.Reg(k), m.updatedAt, inc.Reg(k), inc.updatedAt);
    }
  }

  lemma NewestExtends(m: Version, before: seq<Version>, inc: Version, k: Component)
    requires Clean(m) && Clean(inc) && NewestReg(m.Reg(k), before, k)
    ensures NewestReg(Merge(m, inc).Reg(k), before + [inc], k)
  {
    CleanMerge(m, inc);
    var v :| v in before && v.Reg(k) == m.Reg(k);
    assert v in before + [inc] && inc in before + [inc];
  }

  lemma JoinExtends(m: Version, before: seq<Version>, inc: Version)
    requires Clean(m) && Clean(inc) && IsJoin(m, before)
    ensures IsJoin(Merge(m, inc), before + [inc])
  {
    var vs := before + [inc];
    forall k: Component
      ensures NewestReg(Merge(m, inc).Reg(k), vs, k)
    {
      NewestExtends(m, before, inc, k);
    }
    var u :| u in before && u.updatedAt == m.updatedAt;
    var a :| a in before && a.activityAt == m.activityAt;
    var i :| i in before && i.id == m.id;
    assert u in vs && a in vs && i in vs && inc in vs;
  }

  lemma {:induction false} MergeAllIsJoin(vs: seq<Version>)
    requires vs != [] && AllClean(vs)
    ensures Clean(MergeAll(vs)) && IsJoin(MergeAll(vs), vs)
    decreases |vs|
  {
    if |vs| == 1 {
      assert vs[0] in vs;
    } else {
      var before, inc := vs[..|vs| - 1], vs[|vs| - 1];
      SplitLast(vs);
      MergeAllIsJoin(before);
      CleanMerge(MergeAll(before), inc);
      JoinExtends(MergeAll(before), before, inc);
    }
  }

  lemma NewestIsUnique(r: Version, s: Version, vs: seq<Version>, ws: seq<Version>, k: Component)
    requires NewestRegs(r, vs) && NewestRegs(s, ws) && Agree(vs)
    requires forall v :: v in vs <==> v in ws
    ensures r.Reg(k) == s.Reg(k)
  {
    assert NewestReg(r.Reg(k), vs, k) && NewestReg(s.Reg(k), ws, k);
    var a :| a in vs && a.Reg(k) == r.Reg(k);
    var b :| b in ws && b.Reg(k) == s.Reg(k);
  }

  lemma RegsAreUnique(r: Version, s: Version, vs: seq<Version>, ws: seq<Version>)
    requires NewestRegs(r, vs) && NewestRegs(s, ws) && Agree(vs)
    requires forall v :: v in vs <==> v in ws
    ensures forall k: Component :: r.Reg(k) == s.Reg(k)
  {
    forall k: Component
      ensures r.Reg(k) == s.Reg(k)
    {
      NewestIsUnique(r, s, vs, ws, k);
    }
  }

  lemma SameRegs(r: Version, s: Version)
    requires forall k: Component :: r.Reg(k) == s.Reg(k)
    requires r.id == s.id && r.updatedAt == s.updatedAt && r.activityAt == s.activityAt && r.trusted == s.trusted
    ensures r == s
  {
    assert r.Reg(Transcript) == s.Reg(Transcript) && r.Reg(Title) == s.Reg(Title) && r.Reg(Model) == s.Reg(Model);
    assert r.Reg(Draft) == s.Reg(Draft) && r.Reg(Forge) == s.Reg(Forge);
  }

  lemma JoinIsUnique(r: Version, s: Version, vs: seq<Version>, ws: seq<Version>)
    requires IsJoin(r, vs) && IsJoin(s, ws) && Agree(vs)
    requires forall v :: v in vs <==> v in ws
    ensures r == s
  {
    RegsAreUnique(r, s, vs, ws);
    SameRegs(r, s);
  }

  /**
   Two devices that have seen the same versions of a chat, in any order, with any repeats and from
   any starting version, hold the same chat.
   */
  lemma Converges(vs: seq<Version>, ws: seq<Version>)
    requires vs != [] && ws != [] && forall v :: v in vs <==> v in ws
    requires AllClean(vs) && AllClean(ws) && Agree(vs)
    ensures MergeAll(vs) == MergeAll(ws)
  {
    MergeAllIsJoin(vs);
    MergeAllIsJoin(ws);
    JoinIsUnique(MergeAll(vs), MergeAll(ws), vs, ws);
  }

  // ---- echo ----

  lemma EchoClock(clock: int, updatedAt: int)
    ensures ClockOf(OrInt(clock, updatedAt), updatedAt) == ClockOf(clock, updatedAt)
  {}

  /**
   Merging a device's own push back changes no component of any chat whatever, so the image pixels
   stripped for the wire survive; only a missing `activityAt` can be filled in.
   */
  lemma EchoChangesNoComponent(v: Version)
    requires Shaped(v)
    ensures Merge(v, ForPush(v)) == v.(activityAt := Max(v.activityAt, OrInt(v.activityAt, v.updatedAt)))
  {
    forall k: Component
      ensures Clock(ForPush(v), k) == Clock(v, k)
    {
      EchoClock(v.Reg(k).clock, v.updatedAt);
      assert ForPush(v).Reg(k).clock == PushClock(v, k);
    }
    assert Clock(ForPush(v), Transcript) == Clock(v, Transcript) && Clock(ForPush(v), Title) == Clock(v, Title);
    assert Clock(ForPush(v), Model) == Clock(v, Model) && Clock(ForPush(v), Draft) == Clock(v, Draft);
    assert Clock(ForPush(v), Forge) == Clock(v, Forge);
  }

  predicate Pixels(a: Attachment) { a.Image? && a.dataUrl != "" }

  /** A push keeps every message and every attachment but carries no image bytes. */
  lemma PushStripsOnlyPixels(v: Version, ms: seq<Message>)
    requires Shaped(v) && v.transcript.fields[0] == Some(Messages(ms))
    ensures var f := ForPush(v).transcript.fields[0];
            && f.Some? && f.value.Messages? && |f.value.messages| == |ms|
            && forall i | 0 <= i < |ms| ::
                 var sent := f.value.messages[i];
                 && sent.role == ms[i].role && sent.content == ms[i].content
                 && |sent.attachments| == |ms[i].attachments|
                 && forall j | 0 <= j < |sent.attachments| ::
                      && !Pixels(sent.attachments[j]) && sent.attachments[j].name == ms[i].attachments[j].name
                      && (!Pixels(ms[i].attachments[j]) ==> sent.attachments[j] == ms[i].attachments[j])
  {}

  // ---- edits against stale versions ----

  /** A fresh edit yields exactly to versions with a clock beyond its own stamp. */
  lemma EditYieldsExactly(v: Version, k: Component, at: int, inc: Version)
    requires Shaped(v) && Shaped(inc) && Stamp(v, k, at) > 0
    ensures Shaped(Touch(v, k, at))
    ensures var touched := Touch(v, k, at);
            var merged := Merge(touched, inc);
            && (Clock(inc, k) <= Stamp(v, k, at) ==> merged.Reg(k) == touched.Reg(k))
            && (merged.Reg(k).clock != touched.Reg(k).clock
                <==> Clock(inc, k) > Stamp(v, k, at) && Given(inc.Reg(k).fields))
  {
    var touched := Touch(v, k, at);
    assert touched.Reg(k).clock == Stamp(v, k, at);
    assert Merge(touched, inc).Reg(k) == TakeReg(touched, inc, k);
  }

  /** No version whose component clock is at or below the clock before the edit overwrites it. */
  lemma StaleVersionLoses(v: Version, k: Component, at: int, inc: Version)
    requires Shaped(v) && Shaped(inc) && 0 <= v.Reg(k).clock && Clock(inc, k) <= v.Reg(k).clock
    ensures Shaped(Touch(v, k, at))
    ensures Merge(Touch(v, k, at), inc).Reg(k) == Touch(v, k, at).Reg(k)
    ensures forall j: Component | j != k :: Touch(v, k, at).Reg(j) == v.Reg(j)
  {
    EditYieldsExactly(v, k, at, inc);
  }

  // ---- what a merge reports ----

  lemma BringsMoves(local: Version, inc: Version, k: Component)
    requires Shaped(local) && Shaped(inc)
    ensures BringsReg(local, inc, k) <==> TakeReg(local, inc, k) != local.Reg(k)
  {
    if BringsReg(local, inc, k) { assert TakeReg(local, inc, k).clock > local.Reg(k).clock; }
  }

  /** A merge reports a change exactly when it changes more than `updatedAt`. */
  lemma MergeReportsExactly(local: Version, inc: Version)
    requires Shaped(local) && Shaped(inc)
    ensures MergeChanges(local, inc) <==> Merge(local, inc).(updatedAt := local.updatedAt) != local
  {
    forall k: Component
      ensures BringsReg(local, inc, k) <==> Merge(local, inc).Reg(k) != local.Reg(k)
    {
      BringsMoves(local, inc, k);
    }
    var m := Merge(local, inc);
    assert m.Reg(Transcript) == m.transcript && m.Reg(Title) == m.title && m.Reg(Model) == m.model;
    assert m.Reg(Draft) == m.draft && m.Reg(Forge) == m.forge;
  }
}
