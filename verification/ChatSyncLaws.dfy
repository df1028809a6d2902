/** What a device keeps over every run, and how fast it drains (public/app.js). */
module ChatSyncLaws {
  import opened Sequences
  import opened ChatMerge
  import opened ChatSync

  /** No component clock is ahead of `updatedAt`. */
  predicate Bounded(v: Version) {
    Shaped(v) && 0 <= v.updatedAt && forall k: Component :: v.Reg(k).clock <= v.updatedAt
  }

  predicate DistinctIds(chats: seq<Version>) {
    forall j, k | 0 <= j < k < |chats| :: chats[j].id != chats[k].id
  }

  predicate AllGood(chats: seq<Version>) {
    forall i | 0 <= i < |chats| :: chats[i].id != "" && Bounded(chats[i])
  }

  /** Each id with the `updatedAt` that a lookup finds. */
  function Stamps(chats: seq<Version>): map<string, int> {
    if chats == [] then map[] else Stamps(chats[1..])[chats[0].id := chats[0].updatedAt]
  }

  predicate Watermarked(d: Device)
    ensures Watermarked(d) ==> AllShaped(d.chats)
  {
    && DistinctIds(d.chats) && AllGood(d.chats)
    && d.pushed.Keys <= Stamps(d.chats).Keys
    && forall id | id in Stamps(d.chats) :: PushedAt(d.pushed, id) <= Stamps(d.chats)[id]
  }

  function PendingIds(d: Device): set<string> {
    set id | id in Stamps(d.chats) && Stamps(d.chats)[id] != PushedAt(d.pushed, id)
  }

  lemma {:induction false} StampsLookup(chats: seq<Version>, id: string)
    ensures id in Stamps(chats) <==> Position(chats, id) < |chats|
    ensures id in Stamps(chats) ==> Stamps(chats)[id] == chats[Position(chats, id)].updatedAt
    decreases |chats|
  {
    if chats != [] {
      StampsLookup(chats[1..], id);
    }
  }

  lemma {:induction false} StampsReplace(chats: seq<Version>, c: Version)
    requires Position(chats, c.id) < |chats|
    ensures Stamps(chats[Position(chats, c.id) := c]) == Stamps(chats)[c.id := c.updatedAt]
    decreases |chats|
  {
    var after := chats[Position(chats, c.id) := c];
    if chats[0].id == c.id {
      assert after[1..] == chats[1..];
    } else {
      StampsReplace(chats[1..], c);
      assert after[1..] == chats[1..][Position(chats[1..], c.id) := c];
    }
  }

  lemma {:induction false} StampsWithout(chats: seq<Version>, ids: set<string>)
    ensures Stamps(Without(chats, ids)) == Stamps(chats) - ids
    decreases |chats|
  {
    if chats != [] {
      StampsWithout(chats[1..], ids);
      var rest := Without(chats[1..], ids);
      if chats[0].id !in ids {
        assert Without(chats, ids) == [chats[0]] + rest;
      } else {
        assert Without(chats, ids) == rest;
      }
    }
  }

  lemma {:induction false} WithoutKeeps(chats: seq<Version>, ids: set<string>)
    requires DistinctIds(chats) && AllGood(chats)
    ensures DistinctIds(Without(chats, ids)) && AllGood(Without(chats, ids))
    decreases |chats|
  {
    if chats != [] {
      WithoutKeeps(chats[1..], ids);
      var rest := Without(chats[1..], ids);
      forall j | 0 <= j < |rest|
        ensures rest[j].id != chats[0].id
      {
        FilterMembers(Outside(ids), chats[1..], rest[j]);
      }
    }
  }

  lemma TakeBounded(local: Version, inc: Version, k: Component)
    requires Bounded(local) && Bounded(inc)
    ensures TakeReg(local, inc, k).clock <= Max(local.updatedAt, inc.updatedAt)
  {
    assert inc.Reg(k).clock <= inc.updatedAt && local.Reg(k).clock <= local.updatedAt;
  }

  lemma MergeBounded(local: Version, inc: Version)
    requires Bounded(local) && Bounded(inc)
    ensures Bounded(Merge(local, inc)) && Merge(local, inc).id == local.id
    ensures Merge(local, inc).updatedAt == Max(local.updatedAt, inc.updatedAt)
  {
    forall k: Component
      ensures Merge(local, inc).Reg(k).clock <= Merge(local, inc).updatedAt
    {
      TakeBounded(local, inc, k);
      assert Merge(local, inc).Reg(k) == TakeReg(local, inc, k);
    }
  }

  lemma AdoptedBounded(inc: Version)
    requires Bounded(inc)
    ensures Bounded(Adopted(inc)) && Adopted(inc).id == inc.id && Adopted(inc).updatedAt == inc.updatedAt
  {
    forall k: Component
      ensures Adopted(inc).Reg(k).clock <= inc.updatedAt
    {
      assert inc.Reg(k).clock <= inc.updatedAt;
      assert Adopted(inc).Reg(k).clock == Clock(inc, k);
    }
  }

  /** Replacing one chat and its watermark by consistent values. */
  lemma ReplaceKeeps(d: Device, c: Version, mark: int)
    requires Watermarked(d) && HasChat(d, c.id) && Bounded(c) && mark <= c.updatedAt
    ensures var r := Device(d.chats[Position(d.chats, c.id) := c], d.pushed[c.id := mark], d.deletes);
            && Watermarked(r) && Stamps(r.chats) == Stamps(d.chats)[c.id := c.updatedAt]
            && PendingIds(r) == PendingIds(d) - {c.id} + (if mark == c.updatedAt then {} else {c.id})
  {
    StampsReplace(d.chats, c);
    StampsLookup(d.chats, c.id);
    ReplaceGood(d.chats, Position(d.chats, c.id), c);
  }

  lemma ReplaceGood(chats: seq<Version>, i: nat, c: Version)
    requires i < |chats| && DistinctIds(chats) && AllGood(chats) && Bounded(c) && c.id == chats[i].id
    ensures DistinctIds(chats[i := c]) && AllGood(chats[i := c])
  {
    assert forall j | 0 <= j < |chats| :: chats[i := c][j].id == chats[j].id;
  }

  /** Adding a chat with an unused id. */
  lemma PrependKeeps(d: Device, c: Version, mark: int)
    requires Watermarked(d) && c.id != "" && !HasChat(d, c.id) && Bounded(c) && mark <= c.updatedAt
    ensures var r := Device([c] + d.chats, d.pushed[c.id := mark], d.deletes);
            && Watermarked(r) && Stamps(r.chats) == Stamps(d.chats)[c.id := c.updatedAt]
            && PendingIds(r) == PendingIds(d) + (if mark == c.updatedAt then {} else {c.id})
  {
    StampsLookup(d.chats, c.id);
    assert ([c] + d.chats)[1..] == d.chats;
    assert c.id !in d.pushed;
  }

  /** Folding in one version keeps the invariant and never makes a synced chat pending. */
  lemma MergeOneKeeps(d: Device, inc: Version)
    requires Watermarked(d) && Bounded(inc)
    ensures Watermarked(MergeOne(d, inc)) && PendingIds(MergeOne(d, inc)) <= PendingIds(d)
  {
    if inc.id != "" && !Dominated(d.deletes, inc) {
      var i := Position(d.chats, inc.id);
      var mark := Max(PushedAt(d.pushed, inc.id), inc.updatedAt);
      StampsLookup(d.chats, inc.id);
      if i < |d.chats| {
        MergeBounded(d.chats[i], inc);
        ReplaceKeeps(d, Merge(d.chats[i], inc), mark);
      } else {
        AdoptedBounded(inc);
        PrependKeeps(d, Adopted(inc), mark);
      }
    }
  }

  predicate AllBounded(vs: seq<Version>)
    ensures AllBounded(vs) ==> AllShaped(vs)
  {
    forall k | 0 <= k < |vs| :: Bounded(vs[k])
  }

  lemma {:induction false} MergeChatsKeep(d: Device, incs: seq<Version>)
    requires Watermarked(d) && AllBounded(incs)
    ensures Watermarked(MergeChats(d, incs)) && PendingIds(MergeChats(d, incs)) <= PendingIds(d)
    decreases |incs|
  {
    if incs != [] {
      MergeChatsKeep(d, incs[..|incs| - 1]);
      MergeOneKeeps(MergeChats(d, incs[..|incs| - 1]), incs[|incs| - 1]);
    }
  }

  lemma DropGoneKeeps(d: Device, gone: set<string>)
    requires Watermarked(d)
    ensures Watermarked(DropGone(d, gone)) && PendingIds(DropGone(d, gone)) == PendingIds(d) - gone
    ensures Stamps(DropGone(d, gone).chats) == Stamps(d.chats) - gone
  {
    WithoutKeeps(d.chats, gone);
    StampsWithout(d.chats, gone);
  }

  lemma {:induction false} DeleteAllKeeps(d: Device, ts: seq<Tombstone>)
    requires Watermarked(d)
    ensures Watermarked(DeleteAll(d, ts)) && PendingIds(DeleteAll(d, ts)) <= PendingIds(d)
    decreases |ts|
  {
    if ts != [] {
      var before := DeleteAll(d, ts[..|ts| - 1]);
      DeleteAllKeeps(d, ts[..|ts| - 1]);
      DropGoneKeeps(before, {ts[|ts| - 1].id});
    }
  }

  lemma {:induction false} MarkAllKeeps(d: Device, ids: seq<string>)
    requires Watermarked(d)
    ensures Watermarked(MarkAll(d, ids)) && PendingIds(MarkAll(d, ids)) == PendingIds(d) - set id | id in ids
    decreases |ids|
  {
    if ids != [] {
      var init, last := ids[..|ids| - 1], ids[|ids| - 1];
      SplitLast(ids);
      MarkAllKeeps(d, init);
      var m := MarkAll(d, init);
      StampsLookup(d.chats, last);
      var i := Position(d.chats, last);
      if i < |d.chats| {
        ReplaceKeeps(m, d.chats[i], d.chats[i].updatedAt);
        assert d.chats[i := d.chats[i]] == d.chats;
      }
    }
  }

  /** The ids an answer decides about, by accepting or rejecting them. */
  function Decided(r: Reply): set<string> {
    (set id | id in r.accepted) + (set id | id in RejectedIds(r.rejected))
  }

  lemma AnsweredKeeps(d: Device, r: Reply)
    requires Watermarked(d) && AllBounded(r.chats)
    ensures Watermarked(Answered(d, r)) && PendingIds(Answered(d, r)) <= PendingIds(d) - Decided(r)
    ensures Answered(d, r).deletes == Filter(Unsent(SentDeletes(d)), d.deletes)
  {
    var marked := MarkAll(d, r.accepted);
    MarkAllKeeps(d, r.accepted);
    DropGoneKeeps(marked, GoneIds(r.rejected));
    var s := Settled(d, r);
    assert Watermarked(s) && PendingIds(s) <= PendingIds(d) - set id | id in r.accepted;
    MergeChatsKeep(s, r.chats);
    MergeChatsKeepDeletes(s, r.chats);
    DeleteAllKeeps(MergeChats(s, r.chats), r.deleted);
    DeleteAllKeepsDeletes(MergeChats(s, r.chats), r.deleted);
    MarkAllKeeps(MergeIncoming(s, r.chats, r.deleted), RejectedIds(r.rejected));
  }

  lemma {:induction false} MergeChatsKeepDeletes(d: Device, incs: seq<Version>)
    requires AllShaped(incs) && AllShaped(d.chats)
    ensures MergeChats(d, incs).deletes == d.deletes
    decreases |incs|
  {
    if incs != [] {
      MergeChatsKeepDeletes(d, incs[..|incs| - 1]);
    }
  }

  lemma {:induction false} DeleteAllKeepsDeletes(d: Device, ts: seq<Tombstone>)
    ensures DeleteAll(d, ts).deletes == d.deletes
    decreases |ts|
  {
    if ts != [] {
      DeleteAllKeepsDeletes(d, ts[..|ts| - 1]);
    }
  }

  // ---- every run ----

  datatype Action =
    | EditChat(id: string, k: Component, fields: seq<Field>, at: int)
    | NewChat(blank: Version)
    | ForgetChat(id: string, at: int, blank: Version)
    | Arrive(incs: seq<Version>, deleted: seq<Tombstone>)
    | SyncRound(reply: Reply, blank: Version)

  /** A freshly minted chat: a new id, no clock ahead of `updatedAt`. */
  predicate Blank(d: Device, c: Version) {
    c.id != "" && Bounded(c) && !HasChat(d, c.id)
  }

  /** What a run may contain: server versions respect the clock bound; minted ids are new. */
  predicate Legal(d: Device, a: Action) {
    match a
    case EditChat(_, k, fields, _) =>
      |fields| == if k.Transcript? || k.Forge? then 2 else 1
    case NewChat(blank) => Blank(d, blank)
    case ForgetChat(_, _, blank) => Blank(d, blank)
    case Arrive(incs, _) => AllBounded(incs)
    case SyncRound(reply, blank) => AllBounded(reply.chats) && blank.id != "" && Bounded(blank)
  }

  function Act(d: Device, a: Action): Device
    requires AllShaped(d.chats) && Legal(d, a)
  {
    match a
    case EditChat(id, k, fields, at) => Edit(d, id, k, fields, at)
    case NewChat(blank) => Open(d, blank)
    case ForgetChat(id, at, blank) => Forget(d, id, at, blank)
    case Arrive(incs, deleted) => MergeIncoming(d, incs, deleted)
    case SyncRound(reply, blank) => Round(d, reply, blank)
  }

  lemma TouchBounded(v: Version, k: Component, fields: seq<Field>, at: int)
    requires Bounded(v) && |fields| == if k.Transcript? || k.Forge? then 2 else 1
    ensures var r := Edited(v, k, fields, at);
            Bounded(r) && r.id == v.id && v.updatedAt <= r.updatedAt
  {
    var r := Edited(v, k, fields, at);
    forall j: Component
      ensures r.Reg(j).clock <= r.updatedAt
    {
      assert v.Reg(j).clock <= v.updatedAt;
    }
  }

  lemma EditKeeps(d: Device, id: string, k: Component, fields: seq<Field>, at: int)
    requires Watermarked(d) && |fields| == if k.Transcript? || k.Forge? then 2 else 1
    ensures Watermarked(Edit(d, id, k, fields, at))
  {
    var i := Position(d.chats, id);
    if i < |d.chats| {
      StampsLookup(d.chats, id);
      TouchBounded(d.chats[i], k, fields, at);
      var c := Edited(d.chats[i], k, fields, at);
      StampsReplace(d.chats, c);
      assert forall j | 0 <= j < |d.chats| :: d.chats[i := c][j].id == d.chats[j].id;
    }
  }

  lemma OpenKeeps(d: Device, blank: Version)
    requires Watermarked(d) && Blank(d, blank)
    ensures Watermarked(Open(d, blank))
  {
    StampsLookup(d.chats, blank.id);
    assert ([blank] + d.chats)[1..] == d.chats;
  }

  /** A device left without chats gets exactly the blank one. */
  lemma MintKeeps(d: Device, blank: Version)
    requires Watermarked(d) && d.chats == [] && blank.id != "" && Bounded(blank)
    ensures Watermarked(d.(chats := [blank]))
    ensures PendingIds(d.(chats := [blank])) == if blank.updatedAt == 0 then {} else {blank.id}
  {
    assert [blank][1..] == [];
    assert Stamps([blank]) == map[blank.id := blank.updatedAt];
  }

  lemma ForgetKeeps(d: Device, id: string, at: int, blank: Version)
    requires Watermarked(d) && Blank(d, blank)
    ensures Watermarked(Forget(d, id, at, blank))
  {
    DropGoneKeeps(d, {id});
    if Without(d.chats, {id}) == [] {
      MintKeeps(DropGone(d, {id}), blank);
    }
  }

  lemma ActKeeps(d: Device, a: Action)
    requires Watermarked(d) && Legal(d, a)
    ensures Watermarked(Act(d, a))
  {
    match a {
      case EditChat(id, k, fields, at) => EditKeeps(d, id, k, fields, at);
      case NewChat(blank) => OpenKeeps(d, blank);
      case ForgetChat(id, at, blank) => ForgetKeeps(d, id, at, blank);
      case Arrive(incs, deleted) =>
        MergeChatsKeep(d, incs);
        DeleteAllKeeps(MergeChats(d, incs), deleted);
      case SyncRound(reply, blank) =>
        AnsweredKeeps(d, reply);
        if Mints(d, reply) {
          MintKeeps(Answered(d, reply), blank);
        }
    }
  }

  predicate LegalRun(d: Device, actions: seq<Action>)
    decreases |actions|
  {
    actions == [] ||
    (AllShaped(d.chats) && Legal(d, actions[0]) && LegalRun(Act(d, actions[0]), actions[1..]))
  }

  function Play(d: Device, actions: seq<Action>): Device
    requires LegalRun(d, actions)
    decreases |actions|
  {
    if actions == [] then d else Play(Act(d, actions[0]), actions[1..])
  }

  /** The watermark invariant over every run of edits, new chats, deletes, arrivals and sync rounds. */
  lemma {:induction false} RunKeepsWatermarks(d: Device, actions: seq<Action>)
    requires Watermarked(d) && LegalRun(d, actions)
    ensures Watermarked(Play(d, actions))
    decreases |actions|
  {
    if actions != [] {
      ActKeeps(d, actions[0]);
      RunKeepsWatermarks(Act(d, actions[0]), actions[1..]);
    }
  }

  /** No merge turns a synced chat pending: whatever arrives, pending chats were pending before. */
  lemma MergeNeverUnsettles(d: Device, incs: seq<Version>, deleted: seq<Tombstone>)
    requires Watermarked(d) && AllBounded(incs)
    ensures Watermarked(MergeIncoming(d, incs, deleted))
    ensures PendingIds(MergeIncoming(d, incs, deleted)) <= PendingIds(d)
  {
    MergeChatsKeep(d, incs);
    DeleteAllKeeps(MergeChats(d, incs), deleted);
  }

  /** A pending chat loses its pending mark to an incoming version exactly when that is as recent. */
  lemma MergeSettlesExactly(d: Device, inc: Version)
    requires Watermarked(d) && Bounded(inc) && inc.id in PendingIds(d) && !Dominated(d.deletes, inc)
    ensures inc.id !in PendingIds(MergeOne(d, inc)) <==> inc.updatedAt >= Stamps(d.chats)[inc.id]
  {
    StampsLookup(d.chats, inc.id);
    var i := Position(d.chats, inc.id);
    MergeBounded(d.chats[i], inc);
    ReplaceKeeps(d, Merge(d.chats[i], inc), Max(PushedAt(d.pushed, inc.id), inc.updatedAt));
  }

  /** An edit makes a synced chat pending exactly when its stamp passes `updatedAt`. */
  lemma EditMakesPendingExactly(d: Device, id: string, k: Component, fields: seq<Field>, at: int)
    requires Watermarked(d) && HasChat(d, id) && id !in PendingIds(d)
    requires |fields| == if k.Transcript? || k.Forge? then 2 else 1
    ensures var c := d.chats[Position(d.chats, id)];
            id in PendingIds(Edit(d, id, k, fields, at)) <==> Stamp(c, k, at) > c.updatedAt
  {
    StampsLookup(d.chats, id);
    var i := Position(d.chats, id);
    var c := Edited(d.chats[i], k, fields, at);
    TouchBounded(d.chats[i], k, fields, at);
    StampsReplace(d.chats, c);
  }
}
