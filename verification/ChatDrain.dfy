/** How fast the bounded round loop drains, and how deletes and edits are decided (public/app.js). */
module ChatDrain {
  import opened Sequences
  import opened ChatMerge
  import opened ChatSync
  import opened ChatSyncLaws

  function IdsOf(chats: seq<Version>): set<string> {
    set i | 0 <= i < |chats| :: chats[i].id
  }

  lemma {:induction false} DistinctIdsCount(chats: seq<Version>)
    requires DistinctIds(chats)
    ensures |IdsOf(chats)| == |chats|
    decreases |chats|
  {
    if chats != [] {
      DistinctIdsCount(chats[1..]);
      assert IdsOf(chats) == {chats[0].id} + IdsOf(chats[1..]) by {
        assert forall i | 0 < i < |chats| :: chats[i] == chats[1..][i - 1];
      }
      assert chats[0].id !in IdsOf(chats[1..]);
    }
  }

  lemma {:induction false} FilterDistinct(p: Version -> bool, chats: seq<Version>)
    requires DistinctIds(chats)
    ensures DistinctIds(Filter(p, chats))
    decreases |chats|
  {
    if chats != [] {
      FilterDistinct(p, chats[1..]);
      var rest := Filter(p, chats[1..]);
      forall j | 0 <= j < |rest|
        ensures rest[j].id != chats[0].id
      {
        FilterMembers(p, chats[1..], rest[j]);
      }
    }
  }

  lemma PositionOfMember(chats: seq<Version>, i: nat)
    requires DistinctIds(chats) && i < |chats|
    ensures Position(chats, chats[i].id) == i
  {
    var p := Position(chats, chats[i].id);
    assert p < |chats| ==> chats[p].id == chats[i].id;
  }

  lemma PendingListIds(d: Device)
    requires Watermarked(d)
    ensures IdsOf(Filter(PendingTest(d), d.chats)) == PendingIds(d)
  {
    var list := Filter(PendingTest(d), d.chats);
    forall id
      ensures id in IdsOf(list) <==> id in PendingIds(d)
    {
      StampsLookup(d.chats, id);
      if id in PendingIds(d) {
        var c := d.chats[Position(d.chats, id)];
        FilterMembers(PendingTest(d), d.chats, c);
        var i :| 0 <= i < |list| && list[i] == c;
      }
      if i :| 0 <= i < |list| && list[i].id == id {
        FilterMembers(PendingTest(d), d.chats, list[i]);
        var j :| 0 <= j < |d.chats| && d.chats[j] == list[i];
        PositionOfMember(d.chats, j);
      }
    }
  }

  function Least(a: nat, b: nat): nat { if a < b then a else b }

  /** A round pushes min(40, pending) distinct pending chats. */
  lemma SentCount(d: Device)
    requires Watermarked(d)
    ensures IdsOf(SentChats(d)) <= PendingIds(d)
    ensures |IdsOf(SentChats(d))| == Least(BATCH, |PendingIds(d)|)
  {
    var list := Filter(PendingTest(d), d.chats);
    PendingListIds(d);
    FilterDistinct(PendingTest(d), d.chats);
    DistinctIdsCount(list);
    DistinctIdsCount(SentChats(d));
  }

  /** The responder decides about every chat it was sent. */
  predicate Complete(d: Device, r: Reply) {
    IdsOf(SentChats(d)) <= Decided(r)
  }

  lemma SentDeletesLeave(d: Device)
    ensures |Filter(Unsent(SentDeletes(d)), d.deletes)| <= |d.deletes| - Least(BATCH, |d.deletes|)
  {
    var sent := SentDeletes(d);
    var rest := d.deletes[|sent|..];
    assert d.deletes == sent + rest;
    FilterConcat(Unsent(sent), sent, rest);
    FilterDropsAll(Unsent(sent), sent);
  }

  function Saturating(a: nat, b: nat): nat { if a < b then 0 else a - b }

  /** One complete round that leaves a chat settles a full batch of each kind. */
  lemma RoundDrains(d: Device, r: Reply, blank: Version)
    requires Watermarked(d) && AllBounded(r.chats) && Complete(d, r) && !Mints(d, r)
    ensures Watermarked(Round(d, r, blank))
    ensures |PendingIds(Round(d, r, blank))| <= Saturating(|PendingIds(d)|, BATCH)
    ensures |Round(d, r, blank).deletes| <= Saturating(|d.deletes|, BATCH)
    ensures |PendingIds(d)| + |d.deletes| > 0 ==>
              |PendingIds(Round(d, r, blank))| + |Round(d, r, blank).deletes| < |PendingIds(d)| + |d.deletes|
  {
    AnsweredKeeps(d, r);
    SentCount(d);
    SentDeletesLeave(d);
    var left := PendingIds(d) - IdsOf(SentChats(d));
    assert PendingIds(Round(d, r, blank)) <= left;
    CardMonotone(PendingIds(Round(d, r, blank)), left);
  }

  lemma {:induction false} CardMonotone(a: set<string>, b: set<string>)
    requires a <= b
    ensures |a| <= |b|
  {
    assert b == a + (b - a);
  }

  /** A round that empties the list is the exception: exactly the minted chat is pending afterwards. */
  lemma EmptyingRoundMints(d: Device, r: Reply, blank: Version)
    requires Watermarked(d) && AllBounded(r.chats) && Mints(d, r) && blank.id != "" && Bounded(blank)
    ensures Watermarked(Round(d, r, blank)) && |Round(d, r, blank).chats| == 1
    ensures PendingIds(Round(d, r, blank)) == if blank.updatedAt == 0 then {} else {blank.id}
  {
    AnsweredKeeps(d, r);
    MintKeeps(Answered(d, r), blank);
  }

  // ---- the loop ----

  /** Every request is answered completely, and no round empties the chat list. */
  predicate Cooperative(d: Device, answers: seq<Answer>)
    requires AllShaped(d.chats) && AnswersShaped(answers)
    decreases |answers|
  {
    answers == [] ||
    (&& answers[0].Delivered? && AllBounded(answers[0].reply.chats)
     && Complete(d, answers[0].reply) && !Mints(d, answers[0].reply)
     && var next := Round(d, answers[0].reply, answers[0].blank);
        More(next) ==> Cooperative(next, answers[1..]))
  }

  /**
   P pending chats and D tombstones drain in max(ceil(P/40), ceil(D/40)) rounds: `n` rounds
   suffice as soon as 40n reaches both.
   */
  lemma {:induction false} RoundsDrain(d: Device, answers: seq<Answer>, n: nat)
    requires Watermarked(d) && AnswersShaped(answers) && Cooperative(d, answers)
    requires 1 <= n <= |answers| && |PendingIds(d)| <= BATCH * n && |d.deletes| <= BATCH * n
    ensures var after := Rounds(d, answers);
            Watermarked(after) && PendingIds(after) == {} && after.deletes == [] && RoundsUsed(d, answers) <= n
    decreases n
  {
    RoundDrains(d, answers[0].reply, answers[0].blank);
    var next := Round(d, answers[0].reply, answers[0].blank);
    NothingMore(next);
    if More(next) {
      RoundsDrain(next, answers[1..], n - 1);
    }
  }

  /** The loop goes on exactly while a chat or a tombstone waits. */
  lemma NothingMore(d: Device)
    requires Watermarked(d)
    ensures More(d) <==> PendingIds(d) != {} || d.deletes != []
  {
    var list := Filter(PendingTest(d), d.chats);
    PendingListIds(d);
    assert list != [] ==> list[0].id in IdsOf(list);
  }

  /** The twelve rounds of one `syncNow` drain up to 480 pending chats and 480 tombstones. */
  lemma TwelveRoundsDrain480(d: Device, answers: seq<Answer>)
    requires Watermarked(d) && AnswersShaped(answers) && Cooperative(d, answers) && |answers| == MAX_ROUNDS
    requires |PendingIds(d)| <= 480 && |d.deletes| <= 480
    ensures PendingIds(Rounds(d, answers)) == {} && Rounds(d, answers).deletes == []
  {
    RoundsDrain(d, answers, MAX_ROUNDS);
  }

  // ---- deletes against edits ----

  lemma MergeOneHas(d: Device, inc: Version)
    requires Watermarked(d) && Bounded(inc) && inc.id != ""
    ensures HasChat(MergeOne(d, inc), inc.id) <==> HasChat(d, inc.id) || !Dominated(d.deletes, inc)
    ensures forall id | id != inc.id :: HasChat(MergeOne(d, inc), id) <==> HasChat(d, id)
    ensures HasChat(MergeOne(d, inc), inc.id) ==>
              StampOf(MergeOne(d, inc), inc.id) ==
              if !HasChat(d, inc.id) then inc.updatedAt
              else if Dominated(d.deletes, inc) then StampOf(d, inc.id)
              else Max(StampOf(d, inc.id), inc.updatedAt)
  {
    var r := MergeOne(d, inc);
    StampsLookup(d.chats, inc.id);
    if !Dominated(d.deletes, inc) {
      var i := Position(d.chats, inc.id);
      if i < |d.chats| {
        MergeBounded(d.chats[i], inc);
        StampsReplace(d.chats, Merge(d.chats[i], inc));
      } else {
        AdoptedBounded(inc);
        assert r.chats[1..] == d.chats;
      }
    }
    forall id
      ensures HasChat(r, id) <==> id in Stamps(r.chats)
      ensures HasChat(d, id) <==> id in Stamps(d.chats)
    {
      StampsLookup(r.chats, id);
      StampsLookup(d.chats, id);
    }
  }

  lemma DeleteOneHas(d: Device, t: Tombstone)
    requires t.id != ""
    ensures HasChat(DeleteOne(d, t), t.id) <==> HasChat(d, t.id) && StampOf(d, t.id) > t.deletedAt
    ensures forall id | id != t.id :: HasChat(DeleteOne(d, t), id) <==> HasChat(d, id)
  {
    StampsWithout(d.chats, {t.id});
    var r := DeleteOne(d, t);
    forall id
      ensures HasChat(r, id) <==> id in Stamps(r.chats)
      ensures HasChat(d, id) <==> id in Stamps(d.chats)
      ensures HasChat(d, id) ==> Stamps(d.chats)[id] == d.chats[Position(d.chats, id)].updatedAt
    {
      StampsLookup(r.chats, id);
      StampsLookup(d.chats, id);
    }
  }

  /** The tombstones queued for `id` are exactly those stamped `at`. */
  predicate QueuedAt(deletes: seq<Tombstone>, id: string, at: int) {
    && (exists k :: 0 <= k < |deletes| && deletes[k].id == id)
    && forall k | 0 <= k < |deletes| && deletes[k].id == id :: deletes[k].deletedAt == at
  }

  /**
   A delete at time `at` meets a version stamped `u`: the device that deleted and the device that
   holds the version agree that the chat lives exactly when u > at.
   */
  lemma DeleteAndEditAgree(deleter: Device, holder: Device, v: Version, at: int)
    requires Watermarked(deleter) && Watermarked(holder) && Bounded(v) && v.id != ""
    requires !HasChat(deleter, v.id) && QueuedAt(deleter.deletes, v.id, at)
    requires HasChat(holder, v.id) && StampOf(holder, v.id) == v.updatedAt
    ensures HasChat(MergeOne(deleter, v), v.id) <==> v.updatedAt > at
    ensures HasChat(DeleteOne(holder, Tombstone(v.id, at)), v.id) <==> v.updatedAt > at
  {
    MergeOneHas(deleter, v);
    DeleteOneHas(holder, Tombstone(v.id, at));
  }

  /** On the deleting device the verdict does not depend on which message arrives first. */
  lemma DeleterOrderIrrelevant(d: Device, v: Version, at: int)
    requires Watermarked(d) && Bounded(v) && v.id != ""
    requires !HasChat(d, v.id) && QueuedAt(d.deletes, v.id, at)
    ensures HasChat(DeleteOne(MergeOne(d, v), Tombstone(v.id, at)), v.id) <==> v.updatedAt > at
    ensures HasChat(MergeOne(DeleteOne(d, Tombstone(v.id, at)), v), v.id) <==> v.updatedAt > at
  {
    MergeOneHas(d, v);
    MergeOneKeeps(d, v);
    DeleteOneHas(MergeOne(d, v), Tombstone(v.id, at));
    DeleteOneHas(d, Tombstone(v.id, at));
    DeleteAllKeeps(d, [Tombstone(v.id, at)]);
    MergeOneHas(DeleteOne(d, Tombstone(v.id, at)), v);
  }

  /**
   A device without a queued tombstone forgets the delete once it has obeyed it: the two orders
   give the same verdict exactly when the local copy or the version is newer than the delete.
   */
  lemma HolderOrderExactly(d: Device, v: Version, at: int)
    requires Watermarked(d) && Bounded(v) && v.id != "" && HasChat(d, v.id) && !Dominated(d.deletes, v)
    ensures var t := Tombstone(v.id, at);
            (HasChat(DeleteOne(MergeOne(d, v), t), v.id) <==> HasChat(MergeOne(DeleteOne(d, t), v), v.id))
            <==> StampOf(d, v.id) > at || v.updatedAt > at
  {
    var t := Tombstone(v.id, at);
    StampsLookup(d.chats, v.id);
    MergeOneHas(d, v);
    MergeOneKeeps(d, v);
    DeleteOneHas(MergeOne(d, v), t);
    DeleteAllKeeps(d, [t]);
    MergeOneHas(DeleteOne(d, t), v);
  }

  /** No list of incoming versions re-adds a chat that a queued tombstone dominates. */
  lemma {:induction false} DominatedNeverReturns(d: Device, incs: seq<Version>, deleted: seq<Tombstone>, id: string)
    requires Watermarked(d) && AllBounded(incs) && !HasChat(d, id)
    requires forall k | 0 <= k < |incs| && incs[k].id == id :: Dominated(d.deletes, incs[k])
    ensures !HasChat(MergeIncoming(d, incs, deleted), id)
    decreases |incs| + |deleted|
  {
    if deleted != [] {
      var init, last := deleted[..|deleted| - 1], deleted[|deleted| - 1];
      DominatedNeverReturns(d, incs, init, id);
      if last.id != "" {
        DeleteOneHas(MergeIncoming(d, incs, init), last);
      }
    } else if incs != [] {
      var init, last := incs[..|incs| - 1], incs[|incs| - 1];
      DominatedNeverReturns(d, init, deleted, id);
      MergeChatsKeep(d, init);
      MergeChatsKeepDeletes(d, init);
      if last.id != "" {
        MergeOneHas(MergeChats(d, init), last);
      }
    }
  }
}
