/**
 The client half of the sync as the page runs it: chat objects updated in place, a watermark map
 and a tombstone queue, all changed by the loops of `mergeIncoming`, `syncNow` and `deleteChat`.
 */
module SyncClient {
  import opened Sequences
  import opened Text
  import opened ChatMerge
  import opened ChatSync

  ghost function Versions(chats: seq<Chat>): (vs: seq<Version>)
    reads chats
    ensures |vs| == |chats| && forall k | 0 <= k < |vs| :: vs[k] == chats[k].Current()
    ensures AllShaped(vs)
  {
    seq(|chats|, k requires 0 <= k < |chats| reads chats => chats[k].Current())
  }

  /** The chats whose id is not in the set, as the same objects. */
  function KeptChats(chats: seq<Chat>, ids: set<string>): seq<Chat> {
    if chats == [] then []
    else
      var last := chats[|chats| - 1];
      KeptChats(chats[..|chats| - 1], ids) + if last.id in ids then [] else [last]
  }

  lemma {:induction false} KeptMembers(chats: seq<Chat>, ids: set<string>)
    ensures forall c | c in KeptChats(chats, ids) :: c in chats
    decreases |chats|
  {
    if chats != [] {
      KeptMembers(chats[..|chats| - 1], ids);
      SplitLast(chats);
    }
  }

  predicate NoRepeats(chats: seq<Chat>) {
    forall j, k | 0 <= j < k < |chats| :: chats[j] != chats[k]
  }

  lemma {:induction false} KeptNoRepeats(chats: seq<Chat>, ids: set<string>)
    requires NoRepeats(chats)
    ensures NoRepeats(KeptChats(chats, ids))
    decreases |chats|
  {
    if chats != [] {
      var init := chats[..|chats| - 1];
      KeptNoRepeats(init, ids);
      KeptMembers(init, ids);
      var kept := KeptChats(init, ids);
      forall j | 0 <= j < |kept|
        ensures kept[j] != chats[|chats| - 1]
      {
        assert kept[j] in init;
      }
    }
  }

  lemma {:induction false} KeptVersions(chats: seq<Chat>, ids: set<string>)
    ensures Versions(KeptChats(chats, ids)) == Filter(Outside(ids), Versions(chats))
    decreases |chats|
  {
    if chats != [] {
      var init, last := chats[..|chats| - 1], chats[|chats| - 1];
      KeptVersions(init, ids);
      assert Versions(chats) == Versions(init) + [last.Current()];
      FilterConcat(Outside(ids), Versions(init), [last.Current()]);
      assert Versions(KeptChats(chats, ids))
          == Versions(KeptChats(init, ids)) + if last.id in ids then [] else [last.Current()];
    }
  }

  class Client {
    var chats: seq<Chat>
    var pushed: map<string, int>
    var deletes: seq<Tombstone>

    /** No chat object occurs twice. */
    ghost predicate Valid()
      reads this
    {
      NoRepeats(chats)
    }

    ghost function State(): (d: Device)
      reads this, chats
      ensures AllShaped(d.chats)
    {
      Device(Versions(chats), pushed, deletes)
    }

    constructor ()
      ensures Valid() && State() == Device([], map[], [])
    {
      chats, pushed, deletes := [], map[], [];
    }

    /** `chats.find`: the index of the first chat with this id. */
    method FindChat(id: string) returns (i: nat)
      ensures i == Position(State().chats, id) && i <= |chats|
      ensures i < |chats| ==> chats[i].id == id
    {
      i := 0;
      while i < |chats| && chats[i].id != id
        invariant i <= |chats| && forall j | 0 <= j < i :: chats[j].id != id
      {
        i := i + 1;
      }
      FirstPosition(State().chats, id, i);
    }

    method IsDominated(inc: Version) returns (dominated: bool)
      ensures dominated == Dominated(deletes, inc)
    {
      for k := 0 to |deletes|
        invariant forall j | 0 <= j < k :: !(deletes[j].id == inc.id && deletes[j].deletedAt >= inc.updatedAt)
      {
        if deletes[k].id == inc.id && deletes[k].deletedAt >= inc.updatedAt {
          return true;
        }
      }
      return false;
    }

    method AddFirst(v: Version)
      requires Valid() && Shaped(v)
      modifies this`chats
      ensures Valid() && Versions(chats) == [v] + old(Versions(chats))
      ensures KeptOrFresh(old(chats))
    {
      var c := new Chat(v);
      chats := [c] + chats;
    }

    method MergeAt(i: nat, inc: Version) returns (changed: bool)
      requires Valid() && Shaped(inc) && i < |chats|
      modifies chats
      ensures Versions(chats) == old(Versions(chats))[i := Merge(old(Versions(chats))[i], inc)]
      ensures changed == MergeChanges(old(Versions(chats))[i], inc)
    {
      changed := chats[i].MergeIncomingChat(inc);
    }

    twostate predicate KeptOrFresh(before: seq<Chat>)
      reads this
    {
      forall k | 0 <= k < |chats| :: chats[k] in before || fresh(chats[k])
    }

    /** Merge into the known chat, or adopt the version as a new one. */
    method MergeOrAdopt(inc: Version) returns (changed: bool)
      requires Valid() && Shaped(inc)
      modifies this`chats, chats
      ensures Valid() && KeptOrFresh(old(chats))
      ensures Versions(chats) == MergeChat(old(Versions(chats)), inc)
      ensures changed == MergeChatMoves(old(Versions(chats)), inc)
    {
      var i := FindChat(inc.id);
      if i == |chats| {
        AddFirst(Adopted(inc));
        changed := true;
      } else {
        changed := MergeAt(i, inc);
      }
    }

    method MergeOneIncoming(inc: Version) returns (changed: bool)
      requires Valid() && Shaped(inc)
      modifies this, chats
      ensures Valid() && State() == MergeOne(old(State()), inc)
      ensures changed == MergeOneMoves(old(State()), inc)
      ensures KeptOrFresh(old(chats))
    {
      if inc.id == "" {
        return false;
      }
      var dominated := IsDominated(inc);
      if dominated {
        return false;
      }
      changed := MergeOrAdopt(inc);
      RaiseMark(inc.id, inc.updatedAt);
    }

    /** The watermark never falls behind a version seen from the server. */
    method RaiseMark(id: string, at: int)
      requires Valid()
      modifies this`pushed
      ensures Valid() && State() == old(State()).(pushed := old(pushed)[id := Max(PushedAt(old(pushed), id), at)])
    {
      pushed := pushed[id := Max(if id in pushed then pushed[id] else 0, at)];
    }

    /** `chats.filter` on the ids. */
    method KeepOutside(ids: set<string>)
      requires Valid()
      modifies this`chats
      ensures Valid() && Versions(chats) == Without(old(State()).chats, ids)
      ensures forall k | 0 <= k < |chats| :: chats[k] in old(chats)
    {
      var kept: seq<Chat> := [];
      for k := 0 to |chats|
        invariant chats == old(chats) && kept == KeptChats(chats[..k], ids)
      {
        assert chats[..k + 1][..k] == chats[..k];
        if chats[k].id !in ids {
          kept := kept + [chats[k]];
        }
      }
      assert chats[..|chats|] == chats;
      KeptVersions(chats, ids);
      KeptMembers(chats, ids);
      KeptNoRepeats(chats, ids);
      chats := kept;
    }

    method DeleteOneIncoming(t: Tombstone) returns (changed: bool)
      requires Valid()
      modifies this
      ensures Valid() && State() == DeleteOne(old(State()), t)
      ensures changed == Kills(old(State()), t)
      ensures forall k | 0 <= k < |chats| :: chats[k] in old(chats)
    {
      if t.id == "" {
        return false;
      }
      var i := FindChat(t.id);
      if i == |chats| || chats[i].updatedAt > t.deletedAt {
        return false;
      }
      KeepOutside({t.id});
      pushed := pushed - {t.id};
      return true;
    }

    method FoldIncoming(incs: seq<Version>, deleted: seq<Tombstone>) returns (changed: bool)
      requires Valid() && AllShaped(incs)
      modifies this, chats
      ensures Valid() && State() == MergeIncoming(old(State()), incs, deleted)
      ensures changed <==> MergeChatsMove(old(State()), incs)
                           || DeletesMove(MergeChats(old(State()), incs), deleted)
      ensures KeptOrFresh(old(chats))
    {
      changed := false;
      for k := 0 to |incs|
        invariant Valid() && State() == MergeChats(old(State()), incs[..k])
        invariant changed <==> MergeChatsMove(old(State()), incs[..k])
        invariant KeptOrFresh(old(chats))
      {
        assert incs[..k + 1][..k] == incs[..k];
        var moved := MergeOneIncoming(incs[k]);
        changed := changed || moved;
      }
      assert incs[..|incs|] == incs;
      ghost var merged := State();
      for k := 0 to |deleted|
        invariant Valid() && State() == DeleteAll(merged, deleted[..k])
        invariant changed <==> MergeChatsMove(old(State()), incs) || DeletesMove(merged, deleted[..k])
        invariant KeptOrFresh(old(chats))
      {
        assert deleted[..k + 1][..k] == deleted[..k];
        var moved := DeleteOneIncoming(deleted[k]);
        changed := changed || moved;
      }
      assert deleted[..|deleted|] == deleted;
    }

    /** Raise the watermark of each named chat to its current `updatedAt`. */
    method MarkPushed(ids: seq<string>)
      requires Valid()
      modifies this`pushed
      ensures Valid() && State() == MarkAll(old(State()), ids)
    {
      for k := 0 to |ids|
        invariant State() == MarkAll(old(State()), ids[..k])
      {
        assert ids[..k + 1][..k] == ids[..k];
        MarkOne(ids[k]);
      }
      assert ids[..|ids|] == ids;
    }

    method MarkOne(id: string)
      requires Valid()
      modifies this`pushed
      ensures Valid() && State() == MarkCurrent(old(State()), id)
    {
      var i := FindChat(id);
      if i < |chats| {
        pushed := pushed[id := chats[i].updatedAt];
      }
    }

    /** The chats whose `updatedAt` differs from their watermark. */
    method PendingChats() returns (list: seq<Version>)
      requires Valid()
      ensures list == Filter(PendingTest(State()), State().chats)
    {
      ghost var d := State();
      list := [];
      for k := 0 to |chats|
        invariant list == Filter(PendingTest(d), d.chats[..k])
      {
        PrefixSnoc(d.chats, k);
        FilterConcat(PendingTest(d), d.chats[..k], [d.chats[k]]);
        var mark := if chats[k].id in pushed then pushed[chats[k].id] else 0;
        if chats[k].updatedAt != mark {
          list := list + [chats[k].Current()];
        }
      }
      assert d.chats[..|chats|] == d.chats;
    }

    /** The chats this round pushes, stripped for the wire, and the tombstones it sends. */
    method PrepareRequest() returns (sent: seq<Version>, dels: seq<Tombstone>)
      requires Valid()
      ensures sent == ForPushAll(SentChats(State())) && dels == SentDeletes(State())
    {
      var list := PendingChats();
      FilterShaped(PendingTest(State()), State().chats);
      sent := ForPushAll(Take40(list));
      dels := Take40(deletes);
    }

    /** The accepts, the chats refused as deleted elsewhere, and the tombstones that were sent. */
    method Settle(dels: seq<Tombstone>, r: Reply) returns (gone: set<string>)
      requires Valid() && dels == SentDeletes(State())
      modifies this
      ensures Valid() && State() == Settled(old(State()), r) && gone == GoneIds(r.rejected)
      ensures forall k | 0 <= k < |chats| :: chats[k] in old(chats)
    {
      MarkPushed(r.accepted);
      gone := GoneIds(r.rejected);
      KeepOutside(gone);
      pushed := pushed - gone;
      deletes := Filter(Unsent(dels), deletes);
    }

    /** One atomic round: everything `syncNow` does with one answer. */
    method ApplyAnswer(dels: seq<Tombstone>, r: Reply, blank: Version)
      requires Valid() && AllShaped(r.chats) && Shaped(blank) && dels == SentDeletes(State())
      modifies this, chats
      ensures Valid() && State() == Round(old(State()), r, blank)
      ensures KeptOrFresh(old(chats))
    {
      var changed := FoldAnswer(dels, r);
      MarkPushed(RejectedIds(r.rejected));
      MintIfEmpty(changed, blank);
    }

    method FoldAnswer(dels: seq<Tombstone>, r: Reply) returns (changed: bool)
      requires Valid() && AllShaped(r.chats) && dels == SentDeletes(State())
      modifies this, chats
      ensures Valid() && State() == MergeIncoming(Settled(old(State()), r), r.chats, r.deleted)
      ensures changed == Moves(old(State()), r) && KeptOrFresh(old(chats))
    {
      var gone := Settle(dels, r);
      var moved := FoldIncoming(r.chats, r.deleted);
      changed := moved || gone != {};
    }

    /** A change that leaves no chat starts a new one. */
    method MintIfEmpty(changed: bool, blank: Version)
      requires Valid() && Shaped(blank)
      modifies this`chats
      ensures Valid() && KeptOrFresh(old(chats))
      ensures var was := old(State());
              State() == if changed && was.chats == [] then was.(chats := [blank]) else was
    {
      if changed && |chats| == 0 {
        assert Versions(chats) == [];
        AddFirst(blank);
      } else if |chats| != 0 {
        assert State().chats != [];
      }
    }

    /** One turn of the loop: ask, fold the answer in, and see whether anything is left. */
    method SyncOnce(answer: Answer) returns (again: bool)
      requires Valid() && AnswersShaped([answer])
      modifies this, chats
      ensures Valid() && KeptOrFresh(old(chats))
      ensures !answer.Delivered? ==> State() == old(State()) && !again
      ensures answer.Delivered? ==>
                AllShaped(answer.reply.chats)
                && State() == Round(old(State()), answer.reply, answer.blank) && again == More(State())
    {
      assert [answer][0] == answer;
      var sent, dels := PrepareRequest();
      if !answer.Delivered? {
        return false;
      }
      ApplyAnswer(dels, answer.reply, answer.blank);
      var list := PendingChats();
      return list != [] || |deletes| > 0;
    }

    /** Up to twelve rounds, each with the next answer of the network. */
    method SyncNow(answers: seq<Answer>)
      requires Valid() && |answers| == MAX_ROUNDS && AnswersShaped(answers)
      modifies this, chats
      ensures Valid() && State() == Rounds(old(State()), answers)
    {
      ghost var goal := Rounds(State(), answers);
      assert answers[0..] == answers;
      for round := 0 to MAX_ROUNDS
        invariant Valid() && KeptOrFresh(old(chats))
        invariant goal == Rounds(State(), answers[round..])
      {
        RoundsFrom(State(), answers, round);
        var again := SyncOnce(answers[round]);
        if !again {
          return;
        }
      }
    }

    /** `renameChat`: the trimmed title, at most 60 characters, an empty one keeps the old. */
    method RenameChat(id: string, text: string, at: int)
      requires Valid()
      modifies chats
      ensures Valid()
      ensures var was := old(State());
              State() == if HasChat(was, id)
                         then Edit(was, id, Title, [TitleAfter(was.chats[Position(was.chats, id)], text)], at) else was
    {
      var i := FindChat(id);
      if i == |chats| {
        return;
      }
      RenameAt(i, text, at);
    }

    method RenameAt(i: nat, text: string, at: int)
      requires Valid() && i < |chats|
      modifies chats[i]
      ensures var vs := old(Versions(chats));
              Versions(chats) == vs[i := Retitled(vs[i], text, at)]
    {
      var cut := Trim(text);
      cut := if |cut| <= 60 then cut else cut[..60];
      if cut != "" {
        chats[i].title := Some(Value.Text(cut));
      }
      var _ := chats[i].TouchChatComponent(Title, at);
    }

    /** `deleteChat`: queue the tombstone, drop the chat and its watermark, never leave no chat. */
    method DeleteChat(id: string, at: int, blank: Version)
      requires Valid() && Shaped(blank)
      modifies this
      ensures Valid() && State() == Forget(old(State()), id, at, blank)
    {
      deletes := deletes + [Tombstone(id, at)];
      pushed := pushed - {id};
      KeepOutside({id});
      if |chats| == 0 {
        assert Versions(chats) == [];
        AddFirst(blank);
      }
    }
  }

  /** A rename keeps a title of up to sixty characters whole, shortens a longer one, and ignores a blank one. */
  lemma RenameExactly(c: Version, text: string)
    requires Shaped(c)
    ensures Trim(text) == "" ==> TitleAfter(c, text) == c.title.fields[0]
    ensures Trim(text) != "" ==>
              exists t :: TitleAfter(c, text) == Some(Value.Text(t)) && t <= Trim(text)
                          && (t == Trim(text) <==> |Trim(text)| <= 60) && (t != Trim(text) ==> |t| == 60)
  {
    var cut := if |Trim(text)| <= 60 then Trim(text) else Trim(text)[..60];
    assert cut <= Trim(text);
  }

  function TitleAfter(c: Version, text: string): Field
    requires Shaped(c)
  {
    var cut := if |Trim(text)| <= 60 then Trim(text) else Trim(text)[..60];
    if cut != "" then Some(Value.Text(cut)) else c.title.fields[0]
  }

  function Retitled(c: Version, text: string, at: int): Version
    requires Shaped(c)
  {
    Edited(c, Title, [TitleAfter(c, text)], at)
  }

  function ForPushAll(vs: seq<Version>): seq<Version>
    requires AllShaped(vs)
  {
    seq(|vs|, k requires 0 <= k < |vs| => ForPush(vs[k]))
  }

  lemma RoundsFrom(d: Device, answers: seq<Answer>, round: nat)
    requires round < |answers| && AllShaped(d.chats) && AnswersShaped(answers)
    ensures AnswersShaped([answers[round]]) && AnswersShaped(answers[round..]) && AnswersShaped(answers[round + 1..])
    ensures Rounds(d, answers[round..]) ==
            if !answers[round].Delivered? then d
            else
              var next := Round(d, answers[round].reply, answers[round].blank);
              if More(next) then Rounds(next, answers[round + 1..]) else next
  {
    assert answers[round..][1..] == answers[round + 1..];
  }

  lemma {:induction false} FirstPosition(chats: seq<Version>, id: string, i: nat)
    requires i <= |chats| && (forall j | 0 <= j < i :: chats[j].id != id) && (i < |chats| ==> chats[i].id == id)
    ensures Position(chats, id) == i
  {
    var p := Position(chats, id);
    assert p < |chats| ==> chats[p].id == id;
    assert i < |chats| ==> chats[i].id == id;
  }
}
