/**
 One device in the cross-device sync (`mergeIncoming`, `syncNow` as atomic rounds, `deleteChat`
 in public/app.js): its chats, the push watermark per chat, and the queue of unsent tombstones.
 */
module ChatSync {
  import opened Sequences
  import opened ChatMerge

  const BATCH: nat := 40
  const MAX_ROUNDS: nat := 12

  datatype Tombstone = Tombstone(id: string, deletedAt: int)

  datatype Device = Device(chats: seq<Version>, pushed: map<string, int>, deletes: seq<Tombstone>)

  function PushedAt(pushed: map<string, int>, id: string): int {
    if id in pushed then pushed[id] else 0
  }

  /** The position of the chat with this id, or the length of the list. */
  function Position(chats: seq<Version>, id: string): (i: nat)
    ensures i <= |chats|
    ensures i < |chats| ==> chats[i].id == id
    ensures forall j | 0 <= j < i :: chats[j].id != id
  {
    if chats == [] || chats[0].id == id then 0 else Position(chats[1..], id) + 1
  }

  predicate HasChat(d: Device, id: string) {
    Position(d.chats, id) < |d.chats|
  }

  function ChatOf(d: Device, id: string): Version
    requires HasChat(d, id)
  {
    d.chats[Position(d.chats, id)]
  }

  function StampOf(d: Device, id: string): int
    requires HasChat(d, id)
  {
    ChatOf(d, id).updatedAt
  }

  predicate IsPending(d: Device, c: Version) {
    c.updatedAt != PushedAt(d.pushed, c.id)
  }

  function Outside(ids: set<string>): Version -> bool {
    (c: Version) => c.id !in ids
  }

  predicate AllShaped(vs: seq<Version>) {
    forall k | 0 <= k < |vs| :: Shaped(vs[k])
  }

  lemma FilterShaped(p: Version -> bool, chats: seq<Version>)
    ensures AllShaped(chats) ==> AllShaped(Filter(p, chats))
  {
    var kept := Filter(p, chats);
    forall k | 0 <= k < |kept|
      ensures AllShaped(chats) ==> Shaped(kept[k])
    {
      FilterMembers(p, chats, kept[k]);
    }
  }

  function Without(chats: seq<Version>, ids: set<string>): (r: seq<Version>)
    ensures AllShaped(chats) ==> AllShaped(r)
  {
    FilterShaped(Outside(ids), chats);
    Filter(Outside(ids), chats)
  }

  // ---- folding in what the server sends ----

  function Tier(f: Field): Field {
    if f == Some(Text("flame")) || f == Some(Text("furnace")) then f else Some(Text("ember"))
  }

  /** The local chat made from a version of an unknown conversation. */
  function Adopted(inc: Version): (c: Version)
    requires Shaped(inc)
    ensures Shaped(c)
  {
    Version(inc.id,
            Register([if inc.transcript.fields[0].Some? then inc.transcript.fields[0] else Some(Messages([])),
                      inc.transcript.fields[1]], Clock(inc, Transcript)),
            Register([OrText(inc.title.fields[0], "New chat")], Clock(inc, Title)),
            Register(inc.model.fields, Clock(inc, Model)),
            Register([OrText(inc.draft.fields[0], "")], Clock(inc, Draft)),
            Register([Tier(inc.forge.fields[0]), Some(Flag(inc.forge.fields[1] == Some(Flag(true))))],
                     Clock(inc, Forge)),
            inc.updatedAt, OrInt(inc.activityAt, inc.updatedAt), inc.trusted)
  }

  /** A queued local delete is at least as new as this version. */
  predicate Dominated(deletes: seq<Tombstone>, inc: Version) {
    exists k :: 0 <= k < |deletes| && deletes[k].id == inc.id && deletes[k].deletedAt >= inc.updatedAt
  }

  function MergeOne(d: Device, inc: Version): (r: Device)
    requires Shaped(inc) && AllShaped(d.chats)
    ensures AllShaped(r.chats)
  {
    if inc.id == "" || Dominated(d.deletes, inc) then d
    else
      Device(MergeChat(d.chats, inc), d.pushed[inc.id := Max(PushedAt(d.pushed, inc.id), inc.updatedAt)], d.deletes)
  }

  /** Merge into the chat with the same id, or adopt the version as a new first chat. */
  function MergeChat(chats: seq<Version>, inc: Version): (r: seq<Version>)
    requires Shaped(inc) && AllShaped(chats)
    ensures AllShaped(r)
  {
    var i := Position(chats, inc.id);
    if i < |chats| then chats[i := Merge(chats[i], inc)] else [Adopted(inc)] + chats
  }

  predicate MergeChatMoves(chats: seq<Version>, inc: Version)
    requires Shaped(inc) && AllShaped(chats)
  {
    var i := Position(chats, inc.id);
    i < |chats| ==> MergeChanges(chats[i], inc)
  }

  predicate MergeOneMoves(d: Device, inc: Version)
    requires Shaped(inc) && AllShaped(d.chats)
  {
    inc.id != "" && !Dominated(d.deletes, inc) && MergeChatMoves(d.chats, inc)
  }

  function MergeChats(d: Device, incs: seq<Version>): (r: Device)
    requires AllShaped(incs) && AllShaped(d.chats)
    ensures AllShaped(r.chats)
  {
    if incs == [] then d else MergeOne(MergeChats(d, incs[..|incs| - 1]), incs[|incs| - 1])
  }

  predicate MergeChatsMove(d: Device, incs: seq<Version>)
    requires AllShaped(incs) && AllShaped(d.chats)
  {
    incs != [] &&
    (MergeChatsMove(d, incs[..|incs| - 1]) || MergeOneMoves(MergeChats(d, incs[..|incs| - 1]), incs[|incs| - 1]))
  }

  predicate Kills(d: Device, t: Tombstone) {
    var i := Position(d.chats, t.id);
    t.id != "" && i < |d.chats| && d.chats[i].updatedAt <= t.deletedAt
  }

  function DeleteOne(d: Device, t: Tombstone): Device {
    if Kills(d, t) then d.(chats := Without(d.chats, {t.id}), pushed := d.pushed - {t.id}) else d
  }

  function DeleteAll(d: Device, ts: seq<Tombstone>): (r: Device)
    ensures AllShaped(d.chats) ==> AllShaped(r.chats)
  {
    if ts == [] then d else DeleteOne(DeleteAll(d, ts[..|ts| - 1]), ts[|ts| - 1])
  }

  predicate DeletesMove(d: Device, ts: seq<Tombstone>) {
    ts != [] && (DeletesMove(d, ts[..|ts| - 1]) || Kills(DeleteAll(d, ts[..|ts| - 1]), ts[|ts| - 1]))
  }

  function MergeIncoming(d: Device, incs: seq<Version>, deleted: seq<Tombstone>): Device
    requires AllShaped(incs) && AllShaped(d.chats)
  {
    DeleteAll(MergeChats(d, incs), deleted)
  }

  // ---- one atomic sync round ----

  function PendingTest(d: Device): Version -> bool {
    (c: Version) => IsPending(d, c)
  }

  function Take40<T>(xs: seq<T>): (r: seq<T>)
    ensures r <= xs && |r| == if |xs| < BATCH then |xs| else BATCH
  {
    if |xs| < BATCH then xs else xs[..BATCH]
  }

  /** The chats a round pushes and the tombstones it sends. */
  function SentChats(d: Device): (r: seq<Version>)
    ensures AllShaped(d.chats) ==> AllShaped(r)
  {
    FilterShaped(PendingTest(d), d.chats);
    Take40(Filter(PendingTest(d), d.chats))
  }

  function SentDeletes(d: Device): seq<Tombstone> {
    Take40(d.deletes)
  }

  datatype Rejection = Rejection(id: string, reason: string)

  datatype Reply = Reply(accepted: seq<string>, rejected: seq<Rejection>, chats: seq<Version>, deleted: seq<Tombstone>)

  function MarkCurrent(d: Device, id: string): Device {
    var i := Position(d.chats, id);
    if i < |d.chats| then d.(pushed := d.pushed[id := d.chats[i].updatedAt]) else d
  }

  function MarkAll(d: Device, ids: seq<string>): (r: Device)
    ensures r.chats == d.chats && r.deletes == d.deletes
  {
    if ids == [] then d else MarkCurrent(MarkAll(d, ids[..|ids| - 1]), ids[|ids| - 1])
  }

  function RejectedIds(rs: seq<Rejection>): (r: seq<string>)
    ensures |r| == |rs| && forall k | 0 <= k < |rs| :: r[k] == rs[k].id
  {
    seq(|rs|, k requires 0 <= k < |rs| => rs[k].id)
  }

  function GoneIds(rs: seq<Rejection>): set<string> {
    set k | 0 <= k < |rs| && rs[k].reason == "deleted" :: rs[k].id
  }

  function DropGone(d: Device, gone: set<string>): Device {
    d.(chats := Without(d.chats, gone), pushed := d.pushed - gone)
  }

  function Unsent(sent: seq<Tombstone>): Tombstone -> bool {
    (t: Tombstone) => forall k | 0 <= k < |sent| :: sent[k].id != t.id
  }

  function DropSent(d: Device, sent: seq<Tombstone>): Device {
    d.(deletes := Filter(Unsent(sent), d.deletes))
  }

  /** The device after the answer's accepts, its "deleted" refusals and the sent tombstones are settled. */
  function Settled(d: Device, r: Reply): Device {
    DropSent(DropGone(MarkAll(d, r.accepted), GoneIds(r.rejected)), SentDeletes(d))
  }

  /** The device after the whole answer, before a possible fresh chat. */
  function Answered(d: Device, r: Reply): Device
    requires AllShaped(d.chats) && AllShaped(r.chats)
  {
    MarkAll(MergeIncoming(Settled(d, r), r.chats, r.deleted), RejectedIds(r.rejected))
  }

  predicate Moves(d: Device, r: Reply)
    requires AllShaped(d.chats) && AllShaped(r.chats)
  {
    || MergeChatsMove(Settled(d, r), r.chats)
    || DeletesMove(MergeChats(Settled(d, r), r.chats), r.deleted)
    || GoneIds(r.rejected) != {}
  }

  /** A round that changes something and leaves no chat mints a new one. */
  predicate Mints(d: Device, r: Reply)
    requires AllShaped(d.chats) && AllShaped(r.chats)
  {
    Moves(d, r) && Answered(d, r).chats == []
  }

  function Round(d: Device, r: Reply, blank: Version): (after: Device)
    requires AllShaped(d.chats) && AllShaped(r.chats)
    ensures Shaped(blank) ==> AllShaped(after.chats)
  {
    var a := Answered(d, r);
    if Mints(d, r) then a.(chats := [blank]) else a
  }

  // ---- the bounded loop ----

  /** What one request comes back with: nothing usable, a refusal, or a reply. */
  datatype Answer = Failed | Refused | Delivered(reply: Reply, blank: Version)

  predicate AnswersShaped(answers: seq<Answer>) {
    forall k | 0 <= k < |answers| && answers[k].Delivered? ::
      AllShaped(answers[k].reply.chats) && Shaped(answers[k].blank)
  }

  predicate More(d: Device) {
    Filter(PendingTest(d), d.chats) != [] || d.deletes != []
  }

  /** The rounds of `syncNow`: stop on a failure or when nothing is left. */
  function Rounds(d: Device, answers: seq<Answer>): Device
    requires AllShaped(d.chats) && AnswersShaped(answers)
    decreases |answers|
  {
    if answers == [] || !answers[0].Delivered? then d
    else
      var next := Round(d, answers[0].reply, answers[0].blank);
      if More(next) then Rounds(next, answers[1..]) else next
  }

  function RoundsUsed(d: Device, answers: seq<Answer>): nat
    requires AllShaped(d.chats) && AnswersShaped(answers)
    decreases |answers|
  {
    if answers == [] || !answers[0].Delivered? then 0
    else
      var next := Round(d, answers[0].reply, answers[0].blank);
      1 + if More(next) then RoundsUsed(next, answers[1..]) else 0
  }

  // ---- local operations ----

  /** An edit of one component of one chat. */
  function Edit(d: Device, id: string, k: Component, fields: seq<Field>, at: int): Device {
    var i := Position(d.chats, id);
    if i < |d.chats| then
      d.(chats := d.chats[i := Edited(d.chats[i], k, fields, at)])
    else d
  }

  function Open(d: Device, blank: Version): Device {
    d.(chats := [blank] + d.chats)
  }

  /** `deleteChat`: queue a tombstone, drop the chat, and never leave the list empty. */
  function Forget(d: Device, id: string, at: int, blank: Version): Device {
    var chats := Without(d.chats, {id});
    Device(if chats == [] then [blank] else chats, d.pushed - {id}, d.deletes + [Tombstone(id, at)])
  }
}
