/**
 Which pending chats are still pending after an answer, and what becomes of an edit made while a
 request is on its way (`syncNow` in public/app.js).
 */
module ChatInFlight {
  import opened Sequences
  import opened ChatMerge
  import opened ChatSync
  import opened ChatSyncLaws

  /** Some undominated version of this chat is at least as recent as `stamp`. */
  predicate Overtaken(deletes: seq<Tombstone>, incs: seq<Version>, id: string, stamp: int) {
    exists k :: 0 <= k < |incs| && incs[k].id == id && !Dominated(deletes, incs[k]) && incs[k].updatedAt >= stamp
  }

  /** Some tombstone of this chat is at least as recent as `stamp`. */
  predicate Buried(ts: seq<Tombstone>, id: string, stamp: int) {
    exists k :: 0 <= k < |ts| && ts[k].id == id && ts[k].deletedAt >= stamp
  }

  lemma OtherUntouched(d: Device, inc: Version, id: string)
    requires Watermarked(d) && Bounded(inc) && inc.id != id
    ensures Watermarked(MergeOne(d, inc))
    ensures id in PendingIds(MergeOne(d, inc)) <==> id in PendingIds(d)
    ensures id in PendingIds(d) ==> id in Stamps(MergeOne(d, inc).chats)
                                    && Stamps(MergeOne(d, inc).chats)[id] == Stamps(d.chats)[id]
  {
    MergeOneKeeps(d, inc);
    if inc.id != "" && !Dominated(d.deletes, inc) {
      var i := Position(d.chats, inc.id);
      var mark := Max(PushedAt(d.pushed, inc.id), inc.updatedAt);
      StampsLookup(d.chats, inc.id);
      if i < |d.chats| {
        MergeBounded(d.chats[i], inc);
        ReplaceKeeps(d, Merge(d.chats[i], inc), mark);
      } else {
        AdoptedBounded(inc);
        PrependKeeps(d, Adopted(inc), mark);
      }
    }
  }

  /** A version that does not overtake a pending chat leaves it pending, with its stamp. */
  lemma OwnUntouched(d: Device, inc: Version)
    requires Watermarked(d) && Bounded(inc) && inc.id in PendingIds(d)
    requires Dominated(d.deletes, inc) || inc.updatedAt < Stamps(d.chats)[inc.id]
    ensures var r := MergeOne(d, inc);
            && inc.id in PendingIds(r) && inc.id in Stamps(r.chats)
            && Stamps(r.chats)[inc.id] == Stamps(d.chats)[inc.id]
  {
    if inc.id != "" && !Dominated(d.deletes, inc) {
      MergeSettlesExactly(d, inc);
      StampsLookup(d.chats, inc.id);
      var c := d.chats[Position(d.chats, inc.id)];
      MergeBounded(c, inc);
      ReplaceKeeps(d, Merge(c, inc), Max(PushedAt(d.pushed, inc.id), inc.updatedAt));
    }
  }

  lemma {:induction false} ArrivalsSettleExactly(d: Device, incs: seq<Version>, id: string)
    requires Watermarked(d) && AllBounded(incs) && id in PendingIds(d)
    ensures var r := MergeChats(d, incs);
            && Watermarked(r)
            && (id in PendingIds(r) <==> !Overtaken(d.deletes, incs, id, Stamps(d.chats)[id]))
            && (id in PendingIds(r) ==> Stamps(r.chats)[id] == Stamps(d.chats)[id])
    decreases |incs|
  {
    if incs != [] {
      var init, last := incs[..|incs| - 1], incs[|incs| - 1];
      ArrivalsSettleExactly(d, init, id);
      MergeChatsKeepDeletes(d, init);
      var m := MergeChats(d, init);
      MergeOneKeeps(m, last);
      OvertakenSnoc(d.deletes, init, last, id, Stamps(d.chats)[id]);
      SplitLast(incs);
      if last.id != id {
        OtherUntouched(m, last, id);
      } else if id in PendingIds(m) {
        if Dominated(m.deletes, last) || last.updatedAt < Stamps(m.chats)[id] {
          OwnUntouched(m, last);
        } else {
          MergeSettlesExactly(m, last);
        }
      }
    }
  }

  lemma OvertakenSnoc(deletes: seq<Tombstone>, init: seq<Version>, last: Version, id: string, stamp: int)
    ensures Overtaken(deletes, init + [last], id, stamp)
            <==> Overtaken(deletes, init, id, stamp)
                 || (last.id == id && !Dominated(deletes, last) && last.updatedAt >= stamp)
  {
    var incs := init + [last];
    assert incs[|init|] == last;
    assert forall k | 0 <= k < |init| :: incs[k] == init[k];
  }

  lemma BuriedSnoc(init: seq<Tombstone>, last: Tombstone, id: string, stamp: int)
    ensures Buried(init + [last], id, stamp)
            <==> Buried(init, id, stamp) || (last.id == id && last.deletedAt >= stamp)
  {
    var ts := init + [last];
    assert ts[|init|] == last;
    assert forall k | 0 <= k < |init| :: ts[k] == init[k];
  }

  lemma {:induction false} TombstonesSettleExactly(d: Device, ts: seq<Tombstone>, id: string)
    requires Watermarked(d) && id in PendingIds(d)
    ensures var r := DeleteAll(d, ts);
            && Watermarked(r)
            && (id in PendingIds(r) <==> !Buried(ts, id, Stamps(d.chats)[id]))
            && (id in PendingIds(r) ==> Stamps(r.chats)[id] == Stamps(d.chats)[id])
    decreases |ts|
  {
    if ts != [] {
      var init, last := ts[..|ts| - 1], ts[|ts| - 1];
      TombstonesSettleExactly(d, init, id);
      SplitLast(ts);
      BuriedSnoc(init, last, id, Stamps(d.chats)[id]);
      var m := DeleteAll(d, init);
      DropGoneKeeps(m, {last.id});
      StampsLookup(m.chats, last.id);
      if id in PendingIds(m) && last.id == id { PendingHasName(m, id); }
    }
  }

  lemma PendingHasName(d: Device, id: string)
    requires Watermarked(d) && id in PendingIds(d)
    ensures id != "" && HasChat(d, id)
  {
    StampsLookup(d.chats, id);
  }

  /**
   A pending chat is still pending after a whole answer exactly when the answer neither accepts nor
   rejects it, no version in it overtakes the chat, and no tombstone in it buries the chat.
   */
  lemma StaysPendingExactly(d: Device, r: Reply, id: string)
    requires Watermarked(d) && AllBounded(r.chats) && id in PendingIds(d)
    ensures var left := Filter(Unsent(SentDeletes(d)), d.deletes);
            var stamp := Stamps(d.chats)[id];
            && Watermarked(Answered(d, r))
            && (id in PendingIds(Answered(d, r))
                <==> id !in Decided(r) && !Overtaken(left, r.chats, id, stamp) && !Buried(r.deleted, id, stamp))
  {
    AnsweredKeeps(d, r);
    if id !in Decided(r) {
      var s := SettledKeepsUndecided(d, r, id);
      ArrivalsSettleExactly(s, r.chats, id);
      var m := MergeChats(s, r.chats);
      DeleteAllKeeps(m, r.deleted);
      if id in PendingIds(m) { TombstonesSettleExactly(m, r.deleted, id); }
      MarkAllKeeps(DeleteAll(m, r.deleted), RejectedIds(r.rejected));
    }
  }

  lemma SettledKeepsUndecided(d: Device, r: Reply, id: string) returns (s: Device)
    requires Watermarked(d) && id in PendingIds(d) && id !in Decided(r)
    ensures s == Settled(d, r) && Watermarked(s) && id in PendingIds(s) && Stamps(s.chats)[id] == Stamps(d.chats)[id]
    ensures s.deletes == Filter(Unsent(SentDeletes(d)), d.deletes)
  {
    s := Settled(d, r);
    var marked := MarkAll(d, r.accepted);
    MarkAllKeeps(d, r.accepted);
    DropGoneKeeps(marked, GoneIds(r.rejected));
    GoneIsDecided(r);
  }

  lemma GoneIsDecided(r: Reply)
    ensures GoneIds(r.rejected) <= Decided(r)
  {
    forall id | id in GoneIds(r.rejected)
      ensures id in Decided(r)
    {
      var k :| 0 <= k < |r.rejected| && r.rejected[k].id == id;
      assert RejectedIds(r.rejected)[k] == id;
    }
  }

  // ---- an edit while a request is on its way ----

  predicate FieldsFit(k: Component, fields: seq<Field>) {
    |fields| == if k.Transcript? || k.Forge? then 2 else 1
  }

  /** Whatever was sent for this chat is the version from before the edit. */
  lemma SentBeforeEdit(d: Device, id: string, k: Component, at: int, j: nat)
    requires Watermarked(d) && HasChat(d, id) && j < |SentChats(d)| && SentChats(d)[j].id == id
    ensures var c := d.chats[Position(d.chats, id)];
            && SentChats(d)[j] == c
            && (ForPush(c).Reg(k).clock < Stamp(c, k, at) <==> c.Reg(k).clock != 0 || c.updatedAt < Stamp(c, k, at))
  {
    var c := d.chats[Position(d.chats, id)];
    var sent := SentChats(d)[j];
    FilterMembers(PendingTest(d), d.chats, sent);
    var i :| 0 <= i < |d.chats| && d.chats[i] == sent;
    assert i == Position(d.chats, id);
    assert ForPush(c).Reg(k).clock == PushClock(c, k);
  }

  /**
   A request leaves in state `d`, the user edits a chat, and then the answer arrives. The edit is
   still waiting to be pushed exactly when it made the chat pending, the answer decided nothing
   about the chat, nothing in it overtakes the edited chat, and nothing in it deletes it. In
   particular an accepted push takes the edit's pending mark although the server never saw it.
   */
  lemma EditInFlightExactly(d: Device, id: string, k: Component, fields: seq<Field>, at: int, r: Reply)
    requires Watermarked(d) && HasChat(d, id) && FieldsFit(k, fields) && AllBounded(r.chats)
    ensures var edited := Edit(d, id, k, fields, at);
            var left := Filter(Unsent(SentDeletes(d)), d.deletes);
            var stamp := Max(StampOf(d, id), Stamp(d.chats[Position(d.chats, id)], k, at));
            && Watermarked(edited) && Watermarked(Answered(edited, r))
            && (id in PendingIds(Answered(edited, r))
                <==> stamp != PushedAt(d.pushed, id) && id !in Decided(r)
                     && !Overtaken(left, r.chats, id, stamp) && !Buried(r.deleted, id, stamp))
  {
    var edited := Edit(d, id, k, fields, at);
    EditKeeps(d, id, k, fields, at);
    EditedStamp(d, id, k, fields, at);
    AnsweredKeeps(edited, r);
    if id in PendingIds(edited) {
      StaysPendingExactly(edited, r, id);
    }
  }

  lemma EditedStamp(d: Device, id: string, k: Component, fields: seq<Field>, at: int)
    requires Watermarked(d) && HasChat(d, id) && FieldsFit(k, fields)
    ensures var edited := Edit(d, id, k, fields, at);
            var stamp := Max(StampOf(d, id), Stamp(d.chats[Position(d.chats, id)], k, at));
            && id in Stamps(edited.chats) && Stamps(edited.chats)[id] == stamp
            && (id in PendingIds(edited) <==> stamp != PushedAt(d.pushed, id))
  {
    var i := Position(d.chats, id);
    var c := Edited(d.chats[i], k, fields, at);
    TouchBounded(d.chats[i], k, fields, at);
    StampsReplace(d.chats, c);
  }
}
