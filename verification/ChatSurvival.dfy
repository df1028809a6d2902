/**
 Which chats outlive the answer of a sync round, with which content, and that syncing never leaves
 the chat list empty (`syncNow` in public/app.js).
 */
module ChatSurvival {
  import opened Sequences
  import opened ChatMerge
  import opened ChatLaws
  import opened ChatSync
  import opened ChatSyncLaws
  import opened ChatDrain

  /** The answer refuses this chat because another device deleted it. */
  predicate RefusedAsDeleted(r: Reply, id: string) {
    exists k :: 0 <= k < |r.rejected| && r.rejected[k].id == id && r.rejected[k].reason == "deleted"
  }

  /** A local tombstone beyond the 40 that this round sends is at least as recent as the version. */
  predicate HeldBack(d: Device, inc: Version) {
    && (exists k :: 0 <= k < |d.deletes| && d.deletes[k].id == inc.id && d.deletes[k].deletedAt >= inc.updatedAt)
    && forall j | 0 <= j < |d.deletes| && j < 40 :: d.deletes[j].id != inc.id
  }

  predicate Lands(d: Device, inc: Version, id: string) {
    inc.id == id && id != "" && !HeldBack(d, inc)
  }

  /** Some version of this chat in the answer lands on the device. */
  predicate SomeLands(d: Device, incs: seq<Version>, id: string) {
    exists k :: 0 <= k < |incs| && Lands(d, incs[k], id)
  }

  /** Some landing version is newer than `at`. */
  predicate SomeLandsPast(d: Device, incs: seq<Version>, id: string, at: int) {
    exists k :: 0 <= k < |incs| && Lands(d, incs[k], id) && incs[k].updatedAt > at
  }

  /** The chat is here and was not refused as deleted. */
  predicate Stays(d: Device, r: Reply, id: string) { HasChat(d, id) && !RefusedAsDeleted(r, id) }

  // ---- what each stage of an answer leaves ----

  /** Both lists have the same first chat with this id, or none. */
  predicate FindsSame(a: seq<Version>, b: seq<Version>, id: string) {
    var i, j := Position(a, id), Position(b, id);
    (i < |a| <==> j < |b|) && (i < |a| && j < |b| ==> b[j] == a[i])
  }

  lemma FindsSameCons(c: Version, a: seq<Version>, b: seq<Version>, id: string)
    requires FindsSame(a, b, id)
    ensures FindsSame([c] + a, [c] + b, id) && (c.id != id ==> FindsSame([c] + a, b, id))
  {
    assert ([c] + a)[1..] == a && ([c] + b)[1..] == b;
  }

  /** A chat that is filtered around stays the same chat. */
  lemma {:induction false} WithoutFinds(chats: seq<Version>, ids: set<string>, id: string)
    requires id !in ids
    ensures FindsSame(chats, Without(chats, ids), id)
    decreases |chats|
  {
    if chats != [] {
      var rest := Without(chats[1..], ids);
      WithoutFinds(chats[1..], ids, id);
      FindsSameCons(chats[0], chats[1..], rest, id);
      SplitFirst(chats);
      assert Without(chats, ids) == if chats[0].id in ids then rest else [chats[0]] + rest;
    }
  }

  lemma {:induction false} WithoutLoses(chats: seq<Version>, ids: set<string>, id: string)
    requires id in ids
    ensures Position(Without(chats, ids), id) == |Without(chats, ids)|
  {
    var rest := Without(chats, ids);
    var j := Position(rest, id);
    if j < |rest| { FilterMembers(Outside(ids), chats, rest[j]); }
  }

  lemma SettlingKeeps(d: Device, r: Reply, id: string)
    ensures HasChat(Settled(d, r), id) <==> Stays(d, r, id)
    ensures Stays(d, r, id) ==> ChatOf(Settled(d, r), id) == ChatOf(d, id)
  {
    var gone := GoneIds(r.rejected);
    if RefusedAsDeleted(r, id) {
      WithoutLoses(d.chats, gone, id);
    } else {
      WithoutFinds(d.chats, gone, id);
    }
  }

  /** After settling, exactly the versions that are not held back can land. */
  lemma HeldBackIsDominated(d: Device, r: Reply, inc: Version)
    ensures Dominated(Settled(d, r).deletes, inc) <==> HeldBack(d, inc)
  {
    var sent, left := SentDeletes(d), Settled(d, r).deletes;
    if k :| 0 <= k < |left| && left[k].id == inc.id && left[k].deletedAt >= inc.updatedAt {
      FilterMembers(Unsent(sent), d.deletes, left[k]);
      forall j | 0 <= j < |d.deletes| && j < 40
        ensures d.deletes[j].id != inc.id
      {
        assert sent[j] == d.deletes[j];
      }
    }
    if HeldBack(d, inc) {
      var k :| 0 <= k < |d.deletes| && d.deletes[k].id == inc.id && d.deletes[k].deletedAt >= inc.updatedAt;
      assert forall j | 0 <= j < |sent| :: sent[j] == d.deletes[j];
      FilterMembers(Unsent(sent), d.deletes, d.deletes[k]);
      var j :| 0 <= j < |left| && left[j] == d.deletes[k];
    }
  }

  /** The landing versions of this chat, in the order of the answer. */
  function Landing(deletes: seq<Tombstone>, incs: seq<Version>, id: string): (r: seq<Version>)
    ensures AllShaped(incs) ==> AllShaped(r)
  {
    if incs == [] then []
    else
      var before, inc := Landing(deletes, incs[..|incs| - 1], id), incs[|incs| - 1];
      if inc.id == id && !Dominated(deletes, inc) then before + [inc] else before
  }

  lemma FoldSnoc(vs: seq<Version>, v: Version)
    requires vs != [] && AllShaped(vs) && Shaped(v)
    ensures (forall u | u in vs :: Shaped(u)) && forall u | u in vs + [v] :: Shaped(u)
    ensures MergeAll(vs + [v]) == Merge(MergeAll(vs), v)
  {
    assert (vs + [v])[..|vs|] == vs;
  }

  lemma MergeOneElsewhere(d: Device, inc: Version, id: string)
    requires AllShaped(d.chats) && Shaped(inc) && inc.id != id && HasChat(d, id)
    ensures HasChat(MergeOne(d, inc), id) && ChatOf(MergeOne(d, inc), id) == ChatOf(d, id)
  {
    var i := Position(d.chats, inc.id);
    if inc.id != "" && !Dominated(d.deletes, inc) {
      if i < |d.chats| {
        FoundElsewhere(d.chats, i, Merge(d.chats[i], inc), id);
      } else {
        assert ([Adopted(inc)] + d.chats)[1..] == d.chats;
      }
    }
  }

  lemma FoundElsewhere(chats: seq<Version>, i: nat, c: Version, id: string)
    requires i < |chats| && chats[i].id != id && c.id != id
    ensures var p, q := Position(chats, id), Position(chats[i := c], id);
            p == q && (p < |chats| ==> chats[i := c][p] == chats[p])
  {
    FirstAt(chats, Position(chats, id), id);
    FirstAt(chats[i := c], Position(chats, id), id);
  }

  lemma FirstAt(chats: seq<Version>, p: nat, id: string)
    requires p <= |chats| && (p < |chats| ==> chats[p].id == id) && forall j | 0 <= j < p :: chats[j].id != id
    ensures Position(chats, id) == p
  {
    var q := Position(chats, id);
  }

  lemma MergeOneHere(d: Device, inc: Version)
    requires AllShaped(d.chats) && Shaped(inc) && HasChat(d, inc.id) && inc.id != "" && !Dominated(d.deletes, inc)
    ensures HasChat(MergeOne(d, inc), inc.id) && ChatOf(MergeOne(d, inc), inc.id) == Merge(ChatOf(d, inc.id), inc)
  {
    var i := Position(d.chats, inc.id);
    FirstAt(d.chats[i := Merge(d.chats[i], inc)], i, inc.id);
  }

  /** The chat is its merge with these versions. */
  ghost predicate MergedWith(d: Device, id: string, c: Version, vs: seq<Version>)
    requires Shaped(c)
  {
    AllShaped(vs) && HasChat(d, id) && ChatOf(d, id) == MergedOn(c, vs)
  }

  /** Merging versions into a chat, one after the other. */
  function MergedOn(c: Version, vs: seq<Version>): (r: Version)
    requires Shaped(c) && AllShaped(vs)
    ensures Shaped(r)
  {
    FoldShaped(c, vs);
    MergeAll([c] + vs)
  }

  lemma FoldShaped(c: Version, vs: seq<Version>)
    requires Shaped(c) && AllShaped(vs)
    ensures forall v | v in [c] + vs :: Shaped(v)
  {}

  lemma MergedOnSnoc(c: Version, vs: seq<Version>, v: Version)
    requires Shaped(c) && AllShaped(vs) && Shaped(v)
    ensures AllShaped(vs + [v]) && MergedOn(c, vs + [v]) == Merge(MergedOn(c, vs), v)
  {
    assert [c] + (vs + [v]) == ([c] + vs) + [v];
    FoldSnoc([c] + vs, v);
  }

  lemma ArrivalMerges(d: Device, inc: Version, id: string, c: Version, vs: seq<Version>)
    requires AllShaped(d.chats) && Shaped(inc) && Shaped(c) && id != "" && MergedWith(d, id, c, vs)
    ensures MergedWith(MergeOne(d, inc), id, c, if inc.id == id && !Dominated(d.deletes, inc) then vs + [inc] else vs)
  {
    if inc.id != id {
      MergeOneElsewhere(d, inc, id);
    } else if !Dominated(d.deletes, inc) {
      MergeOneHere(d, inc);
      MergedOnSnoc(c, vs, inc);
    }
  }

  /** A chat that is here becomes its merge with everything that lands on it, in order. */
  lemma {:induction false} ArrivalsMerge(d: Device, incs: seq<Version>, id: string)
    requires AllShaped(d.chats) && AllShaped(incs) && HasChat(d, id) && id != ""
    ensures MergedWith(MergeChats(d, incs), id, ChatOf(d, id), Landing(d.deletes, incs, id))
    decreases |incs|
  {
    if incs != [] {
      var init, last := incs[..|incs| - 1], incs[|incs| - 1];
      ArrivalsMerge(d, init, id);
      MergeChatsKeepDeletes(d, init);
      ArrivalMerges(MergeChats(d, init), last, id, ChatOf(d, id), Landing(d.deletes, init, id));
    } else {
      assert [ChatOf(d, id)] + [] == [ChatOf(d, id)];
    }
  }

  /** A version of this chat that the queued tombstones let through, newer than `at`. */
  predicate GetsPast(deletes: seq<Tombstone>, inc: Version, id: string, at: int) {
    inc.id == id && !Dominated(deletes, inc) && inc.updatedAt > at
  }

  predicate NewerThan(d: Device, id: string, at: int) { HasChat(d, id) && StampOf(d, id) > at }

  lemma OneMorePast(d: Device, inc: Version, id: string, at: int)
    requires Watermarked(d) && Bounded(inc) && id != ""
    ensures NewerThan(MergeOne(d, inc), id, at) <==> NewerThan(d, id, at) || GetsPast(d.deletes, inc, id, at)
  {
    if inc.id == id {
      MergeOneHas(d, inc);
    } else if HasChat(d, id) {
      MergeOneElsewhere(d, inc, id);
    } else if inc.id != "" {
      MergeOneHas(d, inc);
    }
  }

  predicate SomeGetsPast(deletes: seq<Tombstone>, incs: seq<Version>, id: string, at: int) {
    exists k :: 0 <= k < |incs| && GetsPast(deletes, incs[k], id, at)
  }

  lemma PastSnoc(deletes: seq<Tombstone>, incs: seq<Version>, id: string, at: int)
    requires incs != []
    ensures var n := |incs| - 1;
            SomeGetsPast(deletes, incs, id, at)
            <==> SomeGetsPast(deletes, incs[..n], id, at) || GetsPast(deletes, incs[n], id, at)
  {
    var n := |incs| - 1;
    assert forall k | 0 <= k < n :: incs[..n][k] == incs[k];
  }

  lemma {:induction false} ArrivalsPast(d: Device, incs: seq<Version>, id: string, at: int)
    requires Watermarked(d) && AllBounded(incs) && id != ""
    ensures NewerThan(MergeChats(d, incs), id, at) <==> NewerThan(d, id, at) || SomeGetsPast(d.deletes, incs, id, at)
    decreases |incs|
  {
    if incs != [] {
      var n := |incs| - 1;
      ArrivalsPast(d, incs[..n], id, at);
      MergeChatsKeep(d, incs[..n]);
      MergeChatsKeepDeletes(d, incs[..n]);
      OneMorePast(MergeChats(d, incs[..n]), incs[n], id, at);
      PastSnoc(d.deletes, incs, id, at);
    }
  }

  lemma OneTombstone(d: Device, t: Tombstone, id: string)
    requires id != ""
    ensures HasChat(DeleteOne(d, t), id) <==> HasChat(d, id) && (t.id == id ==> StampOf(d, id) > t.deletedAt)
    ensures HasChat(DeleteOne(d, t), id) ==> ChatOf(DeleteOne(d, t), id) == ChatOf(d, id)
  {
    if t.id != id {
      WithoutFinds(d.chats, {t.id}, id);
    } else {
      WithoutLoses(d.chats, {id}, id);
    }
  }

  /** Every tombstone of this chat is older than `stamp`. */
  predicate Outlives(ts: seq<Tombstone>, id: string, stamp: int) {
    forall k | 0 <= k < |ts| && ts[k].id == id :: stamp > ts[k].deletedAt
  }

  lemma OutlivesSnoc(ts: seq<Tombstone>, id: string, stamp: int)
    requires ts != []
    ensures var n := |ts| - 1;
            Outlives(ts, id, stamp) <==> Outlives(ts[..n], id, stamp) && (ts[n].id == id ==> stamp > ts[n].deletedAt)
  {
    var n := |ts| - 1;
    assert forall k | 0 <= k < n :: ts[..n][k] == ts[k];
  }

  /** Tombstones remove a chat exactly when one is as recent as it, and else leave it as it is. */
  lemma {:induction false} TombstonesDecide(d: Device, ts: seq<Tombstone>, id: string)
    requires id != ""
    ensures HasChat(DeleteAll(d, ts), id) <==> HasChat(d, id) && Outlives(ts, id, StampOf(d, id))
    ensures HasChat(DeleteAll(d, ts), id) ==> ChatOf(DeleteAll(d, ts), id) == ChatOf(d, id)
    decreases |ts|
  {
    if ts != [] {
      var n := |ts| - 1;
      TombstonesDecide(d, ts[..n], id);
      if HasChat(d, id) { OutlivesSnoc(ts, id, StampOf(d, id)); }
      OneTombstone(DeleteAll(d, ts[..n]), ts[n], id);
    }
  }

  // ---- a whole answer ----

  /** What the answer leaves of this chat is newer than `at`. */
  predicate RemainsPast(d: Device, r: Reply, id: string, at: int) {
    (Stays(d, r, id) && StampOf(d, id) > at) || SomeLandsPast(d, r.chats, id, at)
  }

  /**
   After an answer a chat exists exactly when it was here and not refused as deleted, or some version
   of it landed, and no tombstone in the answer is as recent as the newest of what remained.
   */
  lemma SurvivesExactly(d: Device, r: Reply, id: string)
    requires Watermarked(d) && AllBounded(r.chats)
    ensures HasChat(Answered(d, r), id)
            <==> (Stays(d, r, id) || SomeLands(d, r.chats, id))
                 && forall k | 0 <= k < |r.deleted| && r.deleted[k].id == id ::
                      RemainsPast(d, r, id, r.deleted[k].deletedAt)
  {
    var s := Settled(d, r);
    SettledKeeps(d, r);
    var m := MergeChats(s, r.chats);
    MergeChatsKeep(s, r.chats);
    if id == "" {
      AnsweredKeeps(d, r);
      NoNameless(Answered(d, r));
      NoNameless(d);
    } else {
      TombstonesDecide(m, r.deleted, id);
      forall at: int
        ensures NewerThan(m, id, at) <==> RemainsPast(d, r, id, at)
      {
        MergedPast(d, r, id, at);
      }
      MergedHas(d, r, id);
      assert HasChat(Answered(d, r), id) <==> HasChat(DeleteAll(m, r.deleted), id);
    }
  }

  lemma SettledKeeps(d: Device, r: Reply)
    requires Watermarked(d)
    ensures Watermarked(Settled(d, r))
  {
    MarkAllKeeps(d, r.accepted);
    DropGoneKeeps(MarkAll(d, r.accepted), GoneIds(r.rejected));
  }

  lemma NoNameless(d: Device)
    requires Watermarked(d)
    ensures !HasChat(d, "")
  {}

  lemma MergedPast(d: Device, r: Reply, id: string, at: int)
    requires Watermarked(d) && Watermarked(Settled(d, r)) && AllBounded(r.chats) && id != ""
    ensures NewerThan(MergeChats(Settled(d, r), r.chats), id, at) <==> RemainsPast(d, r, id, at)
  {
    SettlingKeeps(d, r, id);
    ArrivalsPast(Settled(d, r), r.chats, id, at);
    forall k | 0 <= k < |r.chats|
      ensures GetsPast(Settled(d, r).deletes, r.chats[k], id, at)
              <==> Lands(d, r.chats[k], id) && r.chats[k].updatedAt > at
    {
      HeldBackIsDominated(d, r, r.chats[k]);
    }
  }

  /** Stamps are not negative, so being there is being newer than -1. */
  lemma MergedHas(d: Device, r: Reply, id: string)
    requires Watermarked(d) && Watermarked(Settled(d, r)) && AllBounded(r.chats) && id != ""
    requires Watermarked(MergeChats(Settled(d, r), r.chats))
    ensures HasChat(MergeChats(Settled(d, r), r.chats), id) <==> Stays(d, r, id) || SomeLands(d, r.chats, id)
  {
    MergedPast(d, r, id, -1);
    assert SomeLands(d, r.chats, id) ==> SomeLandsPast(d, r.chats, id, -1);
  }

  /** What lands on this chat, read off the device before the round. */
  function Landed(d: Device, incs: seq<Version>, id: string): (r: seq<Version>)
    ensures AllShaped(incs) ==> AllShaped(r)
  {
    if incs == [] then []
    else
      var before, inc := Landed(d, incs[..|incs| - 1], id), incs[|incs| - 1];
      if Lands(d, inc, id) then before + [inc] else before
  }

  lemma {:induction false} LandedIsLanding(d: Device, r: Reply, incs: seq<Version>, id: string)
    requires id != ""
    ensures Landed(d, incs, id) == Landing(Settled(d, r).deletes, incs, id)
    decreases |incs|
  {
    if incs != [] {
      LandedIsLanding(d, r, incs[..|incs| - 1], id);
      HeldBackIsDominated(d, r, incs[|incs| - 1]);
    }
  }

  /** A chat that outlives an answer is its merge with the versions that landed, in their order. */
  lemma SurvivorIsMerged(d: Device, r: Reply, id: string)
    requires Watermarked(d) && AllBounded(r.chats) && Stays(d, r, id) && HasChat(Answered(d, r), id)
    ensures Shaped(ChatOf(d, id)) && MergedWith(Answered(d, r), id, ChatOf(d, id), Landed(d, r.chats, id))
  {
    if id == "" { NoNameless(d); }
    SettledKeeps(d, r);
    SettlingKeeps(d, r, id);
    LandedIsLanding(d, r, r.chats, id);
    ArrivalsMerge(Settled(d, r), r.chats, id);
    TombstonesDecide(MergeChats(Settled(d, r), r.chats), r.deleted, id);
  }

  /** The answer brings nothing about this chat. */
  predicate Unmentioned(r: Reply, id: string) {
    && (forall k | 0 <= k < |r.chats| :: r.chats[k].id != id)
    && forall k | 0 <= k < |r.deleted| :: r.deleted[k].id != id
  }

  /** Such a chat is lost exactly when it is refused as deleted, and is otherwise left as it was. */
  lemma RefusalLosesExactly(d: Device, r: Reply, id: string)
    requires Watermarked(d) && AllBounded(r.chats) && HasChat(d, id) && Unmentioned(r, id)
    ensures HasChat(Answered(d, r), id)
            <==> forall k | 0 <= k < |r.rejected| && r.rejected[k].id == id :: r.rejected[k].reason != "deleted"
    ensures HasChat(Answered(d, r), id) ==> ChatOf(Answered(d, r), id) == ChatOf(d, id)
  {
    SurvivesExactly(d, r, id);
    if Stays(d, r, id) {
      NothingLanded(d, r.chats, id);
      SurvivorIsMerged(d, r, id);
    }
  }

  lemma {:induction false} NothingLanded(d: Device, incs: seq<Version>, id: string)
    requires forall k | 0 <= k < |incs| :: incs[k].id != id
    ensures Landed(d, incs, id) == []
    decreases |incs|
  {
    if incs != [] { NothingLanded(d, incs[..|incs| - 1], id); }
  }

  /** The round forgets exactly the tombstones whose chat is named by one of the 40 it sent. */
  lemma TombstonesWaitExactly(d: Device, r: Reply, t: Tombstone)
    requires Watermarked(d) && AllBounded(r.chats)
    ensures t in Answered(d, r).deletes
            <==> t in d.deletes && forall j | 0 <= j < |d.deletes| && j < 40 :: d.deletes[j].id != t.id
  {
    var sent := SentDeletes(d);
    AnsweredKeeps(d, r);
    FilterMembers(Unsent(sent), d.deletes, t);
    assert forall j | 0 <= j < |sent| :: sent[j] == d.deletes[j];
  }

  // ---- the list is never left empty ----

  lemma {:induction false} MergingKeepsChats(d: Device, incs: seq<Version>)
    requires AllShaped(d.chats) && AllShaped(incs)
    ensures |MergeChats(d, incs).chats| >= |d.chats|
    decreases |incs|
  {
    if incs != [] { MergingKeepsChats(d, incs[..|incs| - 1]); }
  }

  lemma {:induction false} OnlyMovesEmpty(d: Device, ts: seq<Tombstone>)
    requires d.chats != [] && DeleteAll(d, ts).chats == []
    ensures DeletesMove(d, ts)
    decreases |ts|
  {
    if ts != [] && DeleteAll(d, ts[..|ts| - 1]).chats == [] {
      OnlyMovesEmpty(d, ts[..|ts| - 1]);
    }
  }

  /** Whatever the answer, a round that starts with a chat ends with one. */
  lemma RoundLeavesAChat(d: Device, r: Reply, blank: Version)
    requires AllShaped(d.chats) && AllShaped(r.chats) && d.chats != []
    ensures Round(d, r, blank).chats != []
  {
    if Answered(d, r).chats == [] && GoneIds(r.rejected) == {} {
      KeepsAll(d.chats);
      MergingKeepsChats(Settled(d, r), r.chats);
      OnlyMovesEmpty(MergeChats(Settled(d, r), r.chats), r.deleted);
    }
  }

  lemma KeepsAll(chats: seq<Version>)
    ensures Without(chats, {}) == chats
  {
    FilterKeepsAll(Outside({}), chats);
  }

  /** And so does a whole sync, however its requests are answered. */
  lemma {:induction false} SyncLeavesAChat(d: Device, answers: seq<Answer>)
    requires AllShaped(d.chats) && AnswersShaped(answers) && d.chats != []
    ensures Rounds(d, answers).chats != []
    decreases |answers|
  {
    if answers != [] && answers[0].Delivered? {
      RoundLeavesAChat(d, answers[0].reply, answers[0].blank);
      SyncLeavesAChat(Round(d, answers[0].reply, answers[0].blank), answers[1..]);
    }
  }

  // ---- deleting a chat ----

  /** Deleting takes exactly this chat away, and leaves a chat to show. */
  lemma ForgetTakesOne(d: Device, id: string, at: int, blank: Version)
    requires Watermarked(d) && Blank(d, blank) && HasChat(d, id)
    ensures var f := Forget(d, id, at, blank);
            && !HasChat(f, id) && f.chats != []
            && forall other | other != id && HasChat(d, other) ::
                 HasChat(f, other) && ChatOf(f, other) == ChatOf(d, other)
  {
    var f, left := Forget(d, id, at, blank), Without(d.chats, {id});
    WithoutLoses(d.chats, {id}, id);
    forall other | other != id && HasChat(d, other)
      ensures HasChat(f, other) && ChatOf(f, other) == ChatOf(d, other)
    {
      WithoutFinds(d.chats, {id}, other);
    }
  }

  /** No tombstone of this chat that waits on the device is as recent as `stamp`. */
  predicate Undeleted(d: Device, id: string, stamp: int) {
    forall k | 0 <= k < |d.deletes| && d.deletes[k].id == id :: stamp > d.deletes[k].deletedAt
  }

  lemma QueueGrows(d: Device, f: Device, id: string, at: int, stamp: int)
    requires f.deletes == d.deletes + [Tombstone(id, at)]
    ensures Undeleted(f, id, stamp) <==> stamp > at && Undeleted(d, id, stamp)
  {
    assert f.deletes[|d.deletes|] == Tombstone(id, at);
    assert forall k | 0 <= k < |d.deletes| :: f.deletes[k] == d.deletes[k];
  }

  /**
   One device deletes a chat at time `at`; another holds a version of it. When the version reaches the
   deleter and the deleter's tombstones reach the holder, both have the chat exactly when the version
   is newer than this delete and every earlier one that still waits, and else neither has it.
   */
  lemma DeleterAndHolderAgree(d: Device, id: string, at: int, blank: Version, holder: Device, v: Version)
    requires Watermarked(d) && Blank(d, blank) && HasChat(d, id) && Bounded(v) && v.id == id
    requires HasChat(holder, id) && StampOf(holder, id) == v.updatedAt
    ensures var f := Forget(d, id, at, blank);
            && AllShaped(f.chats)
            && (HasChat(MergeOne(f, v), id) <==> v.updatedAt > at && Undeleted(d, id, v.updatedAt))
            && (HasChat(DeleteAll(holder, f.deletes), id) <==> v.updatedAt > at && Undeleted(d, id, v.updatedAt))
  {
    var f := Forget(d, id, at, blank);
    if id == "" { NoNameless(d); }
    ForgetKeeps(d, id, at, blank);
    ForgetTakesOne(d, id, at, blank);
    MergeOneHas(f, v);
    QueueGrows(d, f, id, at, v.updatedAt);
    TombstonesDecide(holder, f.deletes, id);
  }

  // ---- when a blank chat appears ----

  lemma {:induction false} EmptyMoves(d: Device, incs: seq<Version>)
    requires AllShaped(d.chats) && AllShaped(incs) && d.chats == []
    ensures MergeChatsMove(d, incs) <==> MergeChats(d, incs).chats != []
    decreases |incs|
  {
    if incs != [] {
      var n := |incs| - 1;
      EmptyMoves(d, incs[..n]);
      if MergeChats(d, incs[..n]).chats == [] { MergingKeepsChats(MergeChats(d, incs[..n]), [incs[n]]); }
    }
  }

  lemma NothingToDelete(d: Device, ts: seq<Tombstone>)
    requires d.chats == []
    ensures DeleteAll(d, ts) == d && !DeletesMove(d, ts)
    decreases |ts|
  {
    if ts != [] { NothingToDelete(d, ts[..|ts| - 1]); }
  }

  /** A chat is refused as deleted, or some version lands. */
  predicate Stirs(d: Device, r: Reply) {
    || (exists k :: 0 <= k < |r.rejected| && r.rejected[k].reason == "deleted")
    || exists k :: 0 <= k < |r.chats| && Lands(d, r.chats[k], r.chats[k].id)
  }

  /**
   A round mints a blank chat exactly when it leaves none, and either there was one before or the
   answer stirred something.
   */
  lemma MintsExactly(d: Device, r: Reply)
    requires Watermarked(d) && AllBounded(r.chats)
    ensures Mints(d, r) <==> Answered(d, r).chats == [] && (d.chats != [] || Stirs(d, r))
  {
    var s := Settled(d, r);
    SettledKeeps(d, r);
    if d.chats != [] {
      if Answered(d, r).chats == [] {
        assert Moves(d, r) by { EmptiedMoves(d, r); }
      }
    } else {
      EmptyMoves(s, r.chats);
      LandsSomewhere(d, r);
      RefusedSome(r);
      var m := MergeChats(s, r.chats);
      if m.chats == [] { NothingToDelete(m, r.deleted); }
    }
  }

  lemma EmptiedMoves(d: Device, r: Reply)
    requires Watermarked(d) && AllBounded(r.chats) && d.chats != [] && Answered(d, r).chats == []
    ensures Moves(d, r)
  {
    var blank := d.chats[0];
    RoundLeavesAChat(d, r, blank);
  }

  lemma RefusedSome(r: Reply)
    ensures GoneIds(r.rejected) != {} <==> exists k :: 0 <= k < |r.rejected| && r.rejected[k].reason == "deleted"
  {
    if k :| 0 <= k < |r.rejected| && r.rejected[k].reason == "deleted" {
      assert r.rejected[k].id in GoneIds(r.rejected);
    }
  }

  lemma LandsSomewhere(d: Device, r: Reply)
    requires Watermarked(d) && AllBounded(r.chats) && d.chats == []
    ensures MergeChats(Settled(d, r), r.chats).chats != []
            <==> exists k :: 0 <= k < |r.chats| && Lands(d, r.chats[k], r.chats[k].id)
  {
    SettledKeeps(d, r);
    var m := MergeChats(Settled(d, r), r.chats);
    MergeChatsKeep(Settled(d, r), r.chats);
    if m.chats != [] {
      var id := m.chats[0].id;
      MergedHas(d, r, id);
    }
    if k :| 0 <= k < |r.chats| && Lands(d, r.chats[k], r.chats[k].id) {
      MergedHas(d, r, r.chats[k].id);
    }
  }
}
