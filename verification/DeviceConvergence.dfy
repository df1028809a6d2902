/** Devices that edit one conversation and receive each other's versions of it (public/app.js). */
module DeviceConvergence {
  import opened Sequences
  import opened ChatMerge
  import opened ChatLaws
  import opened ChatSync
  import opened WireConvergence

  /** A version as another device pushes it: every default already filled in. */
  predicate Complete(v: Version) {
    && Clean(v) && v.id != "" && v.activityAt != 0
    && v.title.fields[0] != Some(Text(""))
    && (v.forge.fields[0] == Some(Text("ember")) || v.forge.fields[0] == Some(Text("flame"))
        || v.forge.fields[0] == Some(Text("furnace")))
    && (v.forge.fields[1] == Some(Flag(true)) || v.forge.fields[1] == Some(Flag(false)))
  }

  /** Adopting such a version loses and adds nothing. */
  lemma AdoptedIsFaithful(v: Version)
    requires Complete(v)
    ensures Adopted(v) == v
  {
    assert CleanReg(v.Reg(Transcript)) && CleanReg(v.Reg(Title)) && CleanReg(v.Reg(Model));
    assert CleanReg(v.Reg(Draft)) && CleanReg(v.Reg(Forge));
    assert v.transcript.fields == [v.transcript.fields[0], v.transcript.fields[1]];
    assert v.title.fields == [v.title.fields[0]] && v.draft.fields == [v.draft.fields[0]];
    assert v.forge.fields == [v.forge.fields[0], v.forge.fields[1]];
  }

  /** Versions of one conversation, all complete. */
  predicate OneChat(incs: seq<Version>, id: string)
    ensures OneChat(incs, id) ==> AllShaped(incs) && AllClean(incs)
  {
    forall k | 0 <= k < |incs| :: Complete(incs[k]) && incs[k].id == id
  }

  lemma FirstArrival(d: Device, inc: Version)
    requires AllShaped(d.chats) && Complete(inc)
    requires Position(d.chats, inc.id) == |d.chats| && !Dominated(d.deletes, inc)
    ensures MergeOne(d, inc).chats == [inc] + d.chats && MergeOne(d, inc).deletes == d.deletes
  {
    AdoptedIsFaithful(inc);
  }

  lemma LaterArrival(d: Device, m: Version, rest: seq<Version>, inc: Version)
    requires AllShaped(d.chats) && Complete(inc) && d.chats == [m] + rest && m.id == inc.id
    requires !Dominated(d.deletes, inc)
    ensures MergeOne(d, inc).chats == [Merge(m, inc)] + rest && MergeOne(d, inc).deletes == d.deletes
  {
    assert d.chats[0] == m && Position(d.chats, inc.id) == 0;
    assert d.chats[0 := Merge(m, inc)] == [Merge(m, inc)] + rest;
  }

  /** Folding the versions into a device that lacks the chat joins them into one new chat. */
  lemma {:induction false} ArrivalsJoin(d: Device, incs: seq<Version>, id: string)
    requires AllShaped(d.chats) && OneChat(incs, id) && incs != []
    requires Position(d.chats, id) == |d.chats| && forall k | 0 <= k < |incs| :: !Dominated(d.deletes, incs[k])
    ensures MergeChats(d, incs).chats == [MergeAll(incs)] + d.chats
    ensures MergeChats(d, incs).deletes == d.deletes && MergeAll(incs).id == id
    decreases |incs|
  {
    var init, last := incs[..|incs| - 1], incs[|incs| - 1];
    if init == [] {
      FirstArrival(d, last);
    } else {
      ArrivalsJoin(d, init, id);
      LaterArrival(MergeChats(d, init), MergeAll(init), d.chats, last);
    }
  }

  /**
   Two devices without the chat that receive any versions of it end with the same chat at the head of
   their lists exactly when each has been sent something as new as the other's chat.
   */
  lemma DevicesConverge(d: Device, e: Device, xs: seq<Version>, ys: seq<Version>, id: string)
    requires AllShaped(d.chats) && AllShaped(e.chats) && OneChat(xs, id) && OneChat(ys, id)
    requires xs != [] && ys != [] && Agree(xs + ys)
    requires Position(d.chats, id) == |d.chats| && forall k | 0 <= k < |xs| :: !Dominated(d.deletes, xs[k])
    requires Position(e.chats, id) == |e.chats| && forall k | 0 <= k < |ys| :: !Dominated(e.deletes, ys[k])
    ensures MergeChats(d, xs).chats == [MergeAll(xs)] + d.chats
    ensures MergeChats(e, ys).chats == [MergeAll(ys)] + e.chats
    ensures MergeAll(xs) == MergeAll(ys) <==> CaughtUp(xs, MergeAll(ys)) && CaughtUp(ys, MergeAll(xs))
  {
    ArrivalsJoin(d, xs, id);
    ArrivalsJoin(e, ys, id);
    MergeAllIsJoin(xs);
    MergeAllIsJoin(ys);
    JoinsMeetExactly(MergeAll(xs), MergeAll(ys), xs, ys);
  }

  // ---- local edits between arrivals ----

  datatype Happening = LocalEdit(k: Component, fields: seq<Field>, at: int) | Arrival(v: Version)

  /** Edits give every field of their component; arrivals are versions of this chat. */
  predicate Proper(h: Happening, id: string) {
    match h
    case LocalEdit(k, fields, _) =>
      |fields| == (if k.Transcript? || k.Forge? then 2 else 1) && forall i | 0 <= i < |fields| :: fields[i].Some?
    case Arrival(v) => Clean(v) && v.id == id && id != ""
  }

  predicate AllProper(hs: seq<Happening>, id: string) {
    forall k | 0 <= k < |hs| :: Proper(hs[k], id)
  }

  lemma EditIsClean(c: Version, h: Happening)
    requires Clean(c) && h.LocalEdit? && Proper(h, c.id)
    ensures var e := Edited(c, h.k, h.fields, h.at);
            && Clean(e) && e.id == c.id && e.Reg(h.k).clock > c.Reg(h.k).clock && e.Reg(h.k).clock <= e.updatedAt
            && (forall j: Component | j != h.k :: e.Reg(j) == c.Reg(j))
            && c.updatedAt <= e.updatedAt && e.activityAt == c.activityAt && (c.trusted ==> e.trusted)
  {
    var e := Edited(c, h.k, h.fields, h.at);
    assert CleanReg(c.Reg(h.k));
    forall j: Component
      ensures CleanReg(e.Reg(j)) && (j != h.k ==> e.Reg(j) == c.Reg(j))
    {
      assert CleanReg(c.Reg(j));
    }
  }

  /** The chat after one happening. */
  function ChatStep(c: Version, h: Happening): (r: Version)
    requires Clean(c) && Proper(h, c.id)
    ensures Clean(r) && r.id == c.id
  {
    match h
    case LocalEdit(k, fields, at) =>
      EditIsClean(c, h);
      Edited(c, k, fields, at)
    case Arrival(v) =>
      CleanMerge(c, v);
      Merge(c, v)
  }

  function ChatAfter(c: Version, hs: seq<Happening>): (r: Version)
    requires Clean(c) && AllProper(hs, c.id)
    ensures Clean(r) && r.id == c.id
  {
    if hs == [] then c else ChatStep(ChatAfter(c, hs[..|hs| - 1]), hs[|hs| - 1])
  }

  /** Every version the device has held or received: the first one, its own edits, the arrivals. */
  function Seen(c: Version, hs: seq<Happening>): (r: seq<Version>)
    requires Clean(c) && AllProper(hs, c.id)
    ensures r != []
  {
    if hs == [] then [c]
    else
      var h := hs[|hs| - 1];
      Seen(c, hs[..|hs| - 1]) + [if h.LocalEdit? then ChatAfter(c, hs) else h.v]
  }

  lemma EditJoins(m: Version, before: seq<Version>, h: Happening)
    requires Clean(m) && IsJoin(m, before) && h.LocalEdit? && Proper(h, m.id)
    ensures IsJoin(ChatStep(m, h), before + [ChatStep(m, h)])
  {
    var e := ChatStep(m, h);
    var vs := before + [e];
    EditIsClean(m, h);
    assert e in vs && forall v | v in vs :: v == e || v in before;
    forall j: Component
      ensures NewestReg(e.Reg(j), vs, j)
    {
      assert NewestReg(m.Reg(j), before, j);
    }
  }

  /**
   However edits and arrivals interleave, the chat on the device is the join of everything the
   device has seen, its own edits included.
   */
  lemma {:induction false} HoldsJoinOfSeen(c: Version, hs: seq<Happening>)
    requires Clean(c) && AllProper(hs, c.id)
    ensures IsJoin(ChatAfter(c, hs), Seen(c, hs))
    decreases |hs|
  {
    if hs == [] {
      assert c in Seen(c, hs);
    } else {
      var init, h := hs[..|hs| - 1], hs[|hs| - 1];
      HoldsJoinOfSeen(c, init);
      if h.LocalEdit? {
        EditJoins(ChatAfter(c, init), Seen(c, init), h);
      } else {
        JoinExtends(ChatAfter(c, init), Seen(c, init), h.v);
      }
    }
  }

  /** The device after one happening in its chat `id`. */
  function DeviceStep(d: Device, id: string, h: Happening): (r: Device)
    requires AllShaped(d.chats) && Proper(h, id)
    ensures AllShaped(r.chats)
  {
    match h
    case LocalEdit(k, fields, at) =>
      var r := Edit(d, id, k, fields, at);
      assert AllShaped(r.chats);
      r
    case Arrival(v) => MergeOne(d, v)
  }

  function DeviceAfter(d: Device, id: string, hs: seq<Happening>): (r: Device)
    requires AllShaped(d.chats) && AllProper(hs, id)
    ensures AllShaped(r.chats)
  {
    if hs == [] then d else DeviceStep(DeviceAfter(d, id, hs[..|hs| - 1]), id, hs[|hs| - 1])
  }

  /** No arrival is dominated by a queued tombstone. */
  predicate Welcome(d: Device, hs: seq<Happening>) {
    forall k | 0 <= k < |hs| && hs[k].Arrival? :: !Dominated(d.deletes, hs[k].v)
  }

  lemma ReplacedStays(chats: seq<Version>, c: Version)
    requires Position(chats, c.id) < |chats|
    ensures Position(chats[Position(chats, c.id) := c], c.id) == Position(chats, c.id)
  {
    var i := Position(chats, c.id);
    var after := chats[i := c];
    assert after[i].id == c.id && forall j | 0 <= j < i :: after[j] == chats[j];
  }

  /** On the device the chat goes through the same happenings. */
  lemma {:induction false} DeviceHoldsChat(d: Device, id: string, hs: seq<Happening>)
    requires AllShaped(d.chats) && HasChat(d, id) && Clean(ChatOf(d, id)) && AllProper(hs, id) && Welcome(d, hs)
    ensures var r := DeviceAfter(d, id, hs);
            r.deletes == d.deletes && HasChat(r, id) && ChatOf(r, id) == ChatAfter(ChatOf(d, id), hs)
    decreases |hs|
  {
    if hs != [] {
      DeviceHoldsChat(d, id, hs[..|hs| - 1]);
      var m := DeviceAfter(d, id, hs[..|hs| - 1]);
      ReplacedStays(m.chats, ChatStep(ChatOf(m, id), hs[|hs| - 1]));
    }
  }

  lemma {:induction false} SeenIsClean(c: Version, hs: seq<Happening>)
    requires Clean(c) && AllProper(hs, c.id)
    ensures AllClean(Seen(c, hs))
    decreases |hs|
  {
    if hs != [] {
      SeenIsClean(c, hs[..|hs| - 1]);
    }
  }

  /**
   Two devices edit a chat and receive versions of it, merged by others or not, in any order. They
   hold the same chat exactly when each has seen something as new as the other's chat in every
   component, stamp and flag.
   */
  lemma EditingDevicesConverge(d: Device, e: Device, id: string, xs: seq<Happening>, ys: seq<Happening>)
    requires AllShaped(d.chats) && HasChat(d, id) && Clean(ChatOf(d, id)) && AllProper(xs, id) && Welcome(d, xs)
    requires AllShaped(e.chats) && HasChat(e, id) && Clean(ChatOf(e, id)) && AllProper(ys, id) && Welcome(e, ys)
    requires Agree(Seen(ChatOf(d, id), xs) + Seen(ChatOf(e, id), ys))
    ensures var r, s := DeviceAfter(d, id, xs), DeviceAfter(e, id, ys);
            && HasChat(r, id) && HasChat(s, id)
            && (ChatOf(r, id) == ChatOf(s, id)
                <==> CaughtUp(Seen(ChatOf(d, id), xs), ChatOf(s, id))
                     && CaughtUp(Seen(ChatOf(e, id), ys), ChatOf(r, id)))
  {
    var a, b := ChatOf(d, id), ChatOf(e, id);
    DeviceHoldsChat(d, id, xs);
    DeviceHoldsChat(e, id, ys);
    HoldsJoinOfSeen(a, xs);
    HoldsJoinOfSeen(b, ys);
    JoinsMeetExactly(ChatAfter(a, xs), ChatAfter(b, ys), Seen(a, xs), Seen(b, ys));
  }

  /** The same up to pixels, where what the devices have seen agrees only on the wire. */
  lemma EditingDevicesConvergeOnWire(d: Device, e: Device, id: string, xs: seq<Happening>, ys: seq<Happening>)
    requires AllShaped(d.chats) && HasChat(d, id) && Clean(ChatOf(d, id)) && AllProper(xs, id) && Welcome(d, xs)
    requires AllShaped(e.chats) && HasChat(e, id) && Clean(ChatOf(e, id)) && AllProper(ys, id) && Welcome(e, ys)
    requires var seen := Seen(ChatOf(d, id), xs) + Seen(ChatOf(e, id), ys); AllClean(seen) && AgreeOnWire(seen)
    ensures var r, s := DeviceAfter(d, id, xs), DeviceAfter(e, id, ys);
            && HasChat(r, id) && HasChat(s, id)
            && (SameOnWire(ChatOf(r, id), ChatOf(s, id))
                <==> CaughtUp(Seen(ChatOf(d, id), xs), ChatOf(s, id))
                     && CaughtUp(Seen(ChatOf(e, id), ys), ChatOf(r, id)))
  {
    var a, b := ChatOf(d, id), ChatOf(e, id);
    DeviceHoldsChat(d, id, xs);
    DeviceHoldsChat(e, id, ys);
    HoldsJoinOfSeen(a, xs);
    HoldsJoinOfSeen(b, ys);
    SeenIsClean(a, xs);
    SeenIsClean(b, ys);
    JoinsMeetOnWireExactly(ChatAfter(a, xs), ChatAfter(b, ys), Seen(a, xs), Seen(b, ys));
  }
}
