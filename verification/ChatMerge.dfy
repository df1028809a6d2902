/**
 Merging two versions of one conversation (`chatForPush`, `syncClock`, `mergeIncomingChat`,
 `touchChatComponent` in public/app.js). A chat is five last-writer-wins registers (transcript,
 title, model, draft, forge), each with its own clock; an absent or unusable clock is 0.
 */
module ChatMerge {
  import opened Sequences

  datatype Attachment =
    | Image(name: string, dataUrl: string)
    | ImageRef(name: string)
    | OtherFile(kind: string, name: string)

  datatype Message = Message(role: string, content: string, attachments: seq<Attachment>)

  datatype Value = Messages(messages: seq<Message>) | Text(text: string) | Flag(flag: bool)

  /** A chat field; None is JavaScript's undefined. */
  type Field = Option<Value>

  datatype Component = Transcript | Title | Model | Draft | Forge

  datatype Register = Register(fields: seq<Field>, clock: int)

  /** A version of a chat, as held locally or sent by the server. */
  datatype Version = Version(
    id: string, transcript: Register, title: Register, model: Register, draft: Register, forge: Register,
    updatedAt: int, activityAt: int, trusted: bool)
  {
    function Reg(k: Component): Register {
      match k
      case Transcript => transcript
      case Title => title
      case Model => model
      case Draft => draft
      case Forge => forge
    }
  }

  /** Every component has its own fixed list of fields. */
  predicate Shaped(v: Version) {
    && |v.transcript.fields| == 2 && |v.title.fields| == 1 && |v.model.fields| == 1
    && |v.draft.fields| == 1 && |v.forge.fields| == 2
  }

  function Max(a: int, b: int): int { if a < b then b else a }

  function OrInt(a: int, b: int): int { if a != 0 then a else b }

  /** `syncClock`: a positive clock counts, anything else falls back to `updatedAt`. */
  function ClockOf(clock: int, updatedAt: int): int {
    if clock > 0 then clock else Max(0, updatedAt)
  }

  function Clock(v: Version, k: Component): int {
    ClockOf(v.Reg(k).clock, v.updatedAt)
  }

  predicate Given(fields: seq<Field>) {
    exists i :: 0 <= i < |fields| && fields[i].Some?
  }

  /** Fields present in `newer` replace those in `older`. */
  function Overlay(older: seq<Field>, newer: seq<Field>): (r: seq<Field>)
    requires |older| == |newer|
    ensures |r| == |older| && forall i | 0 <= i < |r| :: r[i] == if newer[i].Some? then newer[i] else older[i]
  {
    seq(|older|, i requires 0 <= i < |older| => if newer[i].Some? then newer[i] else older[i])
  }

  /** One register of the merge: a strictly newer clock brings its fields along. */
  function Take(local: Register, localUpdated: int, inc: Register, incUpdated: int): Register
    requires |local.fields| == |inc.fields|
  {
    if Brings(local, localUpdated, inc, incUpdated)
    then Register(Overlay(local.fields, inc.fields), ClockOf(inc.clock, incUpdated))
    else local
  }

  predicate Brings(local: Register, localUpdated: int, inc: Register, incUpdated: int) {
    ClockOf(inc.clock, incUpdated) > ClockOf(local.clock, localUpdated) && Given(inc.fields)
  }

  /** The `take` closure: walk the fields of one component and copy those that are defined. */
  method TakeFields(local: Register, localUpdated: int, inc: Register, incUpdated: int)
    returns (r: Register, took: bool)
    requires |local.fields| == |inc.fields|
    ensures r == Take(local, localUpdated, inc, incUpdated)
    ensures took == Brings(local, localUpdated, inc, incUpdated)
  {
    r, took := local, false;
    var next := ClockOf(inc.clock, incUpdated);
    if !(next > ClockOf(local.clock, localUpdated)) {
      return;
    }
    var fields := local.fields;
    for i := 0 to |fields|
      invariant |fields| == |local.fields|
      invariant forall j | 0 <= j < i :: fields[j] == if inc.fields[j].Some? then inc.fields[j] else local.fields[j]
      invariant forall j | i <= j < |fields| :: fields[j] == local.fields[j]
      invariant took <==> exists j :: 0 <= j < i && inc.fields[j].Some?
    {
      if inc.fields[i].Some? {
        fields := fields[i := inc.fields[i]];
        took := true;
      }
    }
    if took {
      assert fields == Overlay(local.fields, inc.fields);
      r := Register(fields, next);
    }
  }

  function TakeReg(local: Version, inc: Version, k: Component): Register
    requires Shaped(local) && Shaped(inc)
  {
    Take(local.Reg(k), local.updatedAt, inc.Reg(k), inc.updatedAt)
  }

  predicate BringsReg(local: Version, inc: Version, k: Component) {
    Brings(local.Reg(k), local.updatedAt, inc.Reg(k), inc.updatedAt)
  }

  function Merge(local: Version, inc: Version): Version
    requires Shaped(local) && Shaped(inc)
  {
    Version(local.id, TakeReg(local, inc, Transcript), TakeReg(local, inc, Title), TakeReg(local, inc, Model),
            TakeReg(local, inc, Draft), TakeReg(local, inc, Forge),
            Max(local.updatedAt, inc.updatedAt), Max(local.activityAt, inc.activityAt),
            local.trusted || inc.trusted)
  }

  /** Whether the merge reports a change; a raised `updatedAt` alone does not count. */
  predicate MergeChanges(local: Version, inc: Version)
    requires Shaped(local) && Shaped(inc)
  {
    || BringsReg(local, inc, Transcript) || BringsReg(local, inc, Title) || BringsReg(local, inc, Model)
    || BringsReg(local, inc, Draft) || BringsReg(local, inc, Forge)
    || (inc.trusted && !local.trusted)
    || inc.activityAt > local.activityAt
  }

  /** A new stamp for one edited component. */
  function Stamp(v: Version, k: Component, at: int): int {
    Max(at, v.Reg(k).clock + 1)
  }

  function WithReg(v: Version, k: Component, r: Register): Version
  {
    match k
    case Transcript => v.(transcript := r)
    case Title => v.(title := r)
    case Model => v.(model := r)
    case Draft => v.(draft := r)
    case Forge => v.(forge := r)
  }

  function Touch(v: Version, k: Component, at: int): Version {
    var stamp := Stamp(v, k, at);
    WithReg(v, k, v.Reg(k).(clock := stamp)).(
      trusted := v.trusted || k == Transcript, updatedAt := Max(v.updatedAt, stamp))
  }

  /** A local edit: new fields for one component, under a fresh stamp. */
  function Edited(v: Version, k: Component, fields: seq<Field>, at: int): Version {
    Touch(WithReg(v, k, Register(fields, v.Reg(k).clock)), k, at)
  }

  // ---- what is pushed ----

  function StripImage(a: Attachment): Attachment {
    if a.Image? && a.dataUrl != "" then ImageRef(a.name) else a
  }

  function StripMessage(m: Message): Message {
    m.(attachments := seq(|m.attachments|, i requires 0 <= i < |m.attachments| => StripImage(m.attachments[i])))
  }

  function StripField(f: Field): Field {
    match f
    case Some(Messages(ms)) => Some(Messages(seq(|ms|, i requires 0 <= i < |ms| => StripMessage(ms[i]))))
    case Some(v) => Some(v)
    case None => Some(Messages([]))
  }

  function OrText(f: Field, default: string): Field {
    if f.None? || f == Some(Text("")) then Some(Text(default)) else f
  }

  function PushClock(v: Version, k: Component): int {
    OrInt(v.Reg(k).clock, v.updatedAt)
  }

  /** `chatForPush`: defaults filled in, image pixels left behind. */
  function ForPush(v: Version): (p: Version)
    requires Shaped(v)
    ensures Shaped(p)
  {
    Version(v.id,
            Register([StripField(v.transcript.fields[0]), v.transcript.fields[1]], PushClock(v, Transcript)),
            Register(v.title.fields, PushClock(v, Title)),
            Register(v.model.fields, PushClock(v, Model)),
            Register([OrText(v.draft.fields[0], "")], PushClock(v, Draft)),
            Register([OrText(v.forge.fields[0], "ember"), Some(Flag(v.forge.fields[1] == Some(Flag(true))))],
                     PushClock(v, Forge)),
            v.updatedAt, OrInt(v.activityAt, v.updatedAt), v.trusted)
  }

  // ---- the chat object ----

  class Chat {
    const id: string
    var messages: Field
    var lastMode: Field
    var title: Field
    var model: Field
    var draft: Field
    var forgeTier: Field
    var forgeMode: Field
    var transcriptUpdatedAt: int
    var titleUpdatedAt: int
    var modelUpdatedAt: int
    var draftUpdatedAt: int
    var forgeUpdatedAt: int
    var updatedAt: int
    var activityAt: int
    var transcriptClockTrusted: bool

    function Current(): (v: Version)
      reads this
      ensures Shaped(v)
    {
      Version(id, Register([messages, lastMode], transcriptUpdatedAt), Register([title], titleUpdatedAt),
              Register([model], modelUpdatedAt), Register([draft], draftUpdatedAt),
              Register([forgeTier, forgeMode], forgeUpdatedAt), updatedAt, activityAt, transcriptClockTrusted)
    }

    constructor (v: Version)
      requires Shaped(v)
      ensures Current() == v
    {
      id := v.id;
      messages, lastMode, transcriptUpdatedAt := v.transcript.fields[0], v.transcript.fields[1], v.transcript.clock;
      title, titleUpdatedAt := v.title.fields[0], v.title.clock;
      model, modelUpdatedAt := v.model.fields[0], v.model.clock;
      draft, draftUpdatedAt := v.draft.fields[0], v.draft.clock;
      forgeTier, forgeMode, forgeUpdatedAt := v.forge.fields[0], v.forge.fields[1], v.forge.clock;
      updatedAt, activityAt, transcriptClockTrusted := v.updatedAt, v.activityAt, v.trusted;
    }

    method SetComponent(k: Component, r: Register)
      requires |r.fields| == |Current().Reg(k).fields|
      modifies this
      ensures Current() == WithReg(old(Current()), k, r)
    {
      match k {
        case Transcript =>
          messages, lastMode, transcriptUpdatedAt := r.fields[0], r.fields[1], r.clock;
          assert [messages, lastMode] == r.fields;
        case Title =>
          title, titleUpdatedAt := r.fields[0], r.clock;
          assert [title] == r.fields;
        case Model =>
          model, modelUpdatedAt := r.fields[0], r.clock;
          assert [model] == r.fields;
        case Draft =>
          draft, draftUpdatedAt := r.fields[0], r.clock;
          assert [draft] == r.fields;
        case Forge =>
          forgeTier, forgeMode, forgeUpdatedAt := r.fields[0], r.fields[1], r.clock;
          assert [forgeTier, forgeMode] == r.fields;
      }
    }

    method TakeComponent(k: Component, inc: Version) returns (took: bool)
      requires Shaped(inc)
      modifies this
      ensures Current() == WithReg(old(Current()), k, TakeReg(old(Current()), inc, k))
      ensures took == BringsReg(old(Current()), inc, k)
    {
      var r;
      r, took := TakeFields(Current().Reg(k), updatedAt, inc.Reg(k), inc.updatedAt);
      SetComponent(k, r);
    }

    method TakeTexts(inc: Version) returns (took: bool)
      requires Shaped(inc)
      modifies this
      ensures var was := old(Current());
              && Current() == was.(title := TakeReg(was, inc, Title), model := TakeReg(was, inc, Model),
                                   draft := TakeReg(was, inc, Draft))
              && took == (BringsReg(was, inc, Title) || BringsReg(was, inc, Model) || BringsReg(was, inc, Draft))
    {
      var tookTitle := TakeComponent(Title, inc);
      var tookModel := TakeComponent(Model, inc);
      var tookDraft := TakeComponent(Draft, inc);
      took := tookTitle || tookModel || tookDraft;
    }

    method MergeIncomingChat(inc: Version) returns (changed: bool)
      requires Shaped(inc)
      modifies this
      ensures Current() == Merge(old(Current()), inc)
      ensures changed == MergeChanges(old(Current()), inc)
    {
      changed := TakeComponent(Transcript, inc);
      if inc.trusted && !transcriptClockTrusted {
        transcriptClockTrusted, changed := true, true;
      }
      var took := TakeTexts(inc);
      changed := changed || took;
      took := TakeComponent(Forge, inc);
      changed := changed || took;
      var nextActivity := Max(activityAt, inc.activityAt);
      if nextActivity != activityAt {
        activityAt, changed := nextActivity, true;
      }
      updatedAt := Max(updatedAt, inc.updatedAt);
    }

    method TouchChatComponent(k: Component, at: int) returns (stamp: int)
      modifies this
      ensures Current() == Touch(old(Current()), k, at) && stamp == Stamp(old(Current()), k, at)
      ensures Current().Reg(k) == old(Current()).Reg(k).(clock := stamp)
      ensures stamp >= at && stamp > old(Current()).Reg(k).clock
      ensures updatedAt >= stamp && updatedAt >= old(updatedAt)
      ensures forall j: Component | j != k :: Current().Reg(j) == old(Current()).Reg(j)
    {
      match k {
        case Transcript =>
          stamp := Max(at, transcriptUpdatedAt + 1);
          transcriptUpdatedAt := stamp;
          transcriptClockTrusted := true;
        case Title =>
          stamp := Max(at, titleUpdatedAt + 1);
          titleUpdatedAt := stamp;
        case Model =>
          stamp := Max(at, modelUpdatedAt + 1);
          modelUpdatedAt := stamp;
        case Draft =>
          stamp := Max(at, draftUpdatedAt + 1);
          draftUpdatedAt := stamp;
        case Forge =>
          stamp := Max(at, forgeUpdatedAt + 1);
          forgeUpdatedAt := stamp;
      }
      updatedAt := Max(updatedAt, stamp);
    }
  }
}
