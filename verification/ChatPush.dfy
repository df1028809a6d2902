/**
 What a push carries: everything but the pixels of images (`chatForPush` in public/app.js), and
 therefore what a second device shows after it has received one.
 */
module ChatPush {
  import opened Sequences
  import opened ChatMerge
  import opened ChatLaws
  import opened ChatSync
  import opened WireConvergence
  import opened DeviceConvergence

  // ---- the same but for pixels ----

  /** An image, with its pixels or with only its name left. */
  predicate IsPicture(a: Attachment) { Pixels(a) || a.ImageRef? }

  predicate AlikeAttachment(a: Attachment, b: Attachment) {
    a == b || (IsPicture(a) && IsPicture(b) && a.name == b.name)
  }

  predicate AlikeMessage(m: Message, n: Message) {
    && m.role == n.role && m.content == n.content && |m.attachments| == |n.attachments|
    && forall j | 0 <= j < |m.attachments| :: AlikeAttachment(m.attachments[j], n.attachments[j])
  }

  predicate AlikeMessages(ms: seq<Message>, ns: seq<Message>) {
    |ms| == |ns| && forall i | 0 <= i < |ms| :: AlikeMessage(ms[i], ns[i])
  }

  predicate IsTranscript(f: Field) { f.Some? && f.value.Messages? }

  predicate AlikeField(f: Field, g: Field) {
    if IsTranscript(f) && IsTranscript(g) then AlikeMessages(f.value.messages, g.value.messages) else f == g
  }

  /** The registers agree on everything but pixels. */
  predicate AlikeReg(a: Version, b: Version, k: Component)
    requires Shaped(a) && Shaped(b)
  {
    if k.Transcript? then
      && a.transcript.clock == b.transcript.clock && a.transcript.fields[1] == b.transcript.fields[1]
      && AlikeField(a.transcript.fields[0], b.transcript.fields[0])
    else a.Reg(k) == b.Reg(k)
  }

  predicate Alike(a: Version, b: Version)
    requires Shaped(a) && Shaped(b)
  {
    && a.id == b.id && a.updatedAt == b.updatedAt && a.activityAt == b.activityAt && a.trusted == b.trusted
    && forall k: Component :: AlikeReg(a, b, k)
  }

  // ---- stripping ----

  lemma StripsAlike(a: Attachment, b: Attachment)
    ensures StripImage(a) == StripImage(b) <==> AlikeAttachment(a, b)
  {}

  lemma StripMessagesAlike(m: Message, n: Message)
    ensures StripMessage(m) == StripMessage(n) <==> AlikeMessage(m, n)
  {
    var s, t := StripMessage(m), StripMessage(n);
    if AlikeMessage(m, n) {
      assert s.attachments == t.attachments;
    }
    if s == t {
      forall j | 0 <= j < |m.attachments|
        ensures AlikeAttachment(m.attachments[j], n.attachments[j])
      {
        assert s.attachments[j] == t.attachments[j];
        StripsAlike(m.attachments[j], n.attachments[j]);
      }
    }
  }

  function Stripped(ms: seq<Message>): (r: seq<Message>)
    ensures |r| == |ms| && forall i | 0 <= i < |ms| :: r[i] == StripMessage(ms[i])
    ensures StripField(Some(Messages(ms))) == Some(Messages(r))
  {
    seq(|ms|, i requires 0 <= i < |ms| => StripMessage(ms[i]))
  }

  lemma StrippedAlike(ms: seq<Message>, ns: seq<Message>)
    ensures Stripped(ms) == Stripped(ns) <==> AlikeMessages(ms, ns)
  {
    var s, t := Stripped(ms), Stripped(ns);
    if |ms| == |ns| {
      forall i | 0 <= i < |ms|
        ensures s[i] == t[i] <==> AlikeMessage(ms[i], ns[i])
      {
        StripMessagesAlike(ms[i], ns[i]);
      }
    }
  }

  /** Two defined transcript fields look the same on the wire exactly when they are alike. */
  lemma StripFieldsAlike(f: Field, g: Field)
    requires f.Some? && g.Some?
    ensures StripField(f) == StripField(g) <==> AlikeField(f, g)
  {
    if IsTranscript(f) && IsTranscript(g) {
      StrippedAlike(f.value.messages, g.value.messages);
    }
  }

  lemma StrippedIsAlike(f: Field)
    requires f.Some?
    ensures AlikeField(StripField(f), f)
  {
    StripTwice(f);
    StripFieldsAlike(StripField(f), f);
  }

  // ---- when a push leaves a chat as it is ----

  predicate PixelFree(f: Field) {
    IsTranscript(f) ==>
      forall i, j | 0 <= i < |f.value.messages| && 0 <= j < |f.value.messages[i].attachments| ::
        !Pixels(f.value.messages[i].attachments[j])
  }

  lemma StripFieldExactly(f: Field)
    ensures StripField(f) == f <==> f.Some? && PixelFree(f)
  {
    if IsTranscript(f) {
      var ms := f.value.messages;
      if PixelFree(f) {
        forall i | 0 <= i < |ms|
          ensures StripMessage(ms[i]) == ms[i]
        {
          assert StripMessage(ms[i]).attachments == ms[i].attachments;
        }
        assert Stripped(ms) == ms;
      }
      if Stripped(ms) == ms {
        forall i, j | 0 <= i < |ms| && 0 <= j < |ms[i].attachments|
          ensures !Pixels(ms[i].attachments[j])
        {
          assert Stripped(ms)[i].attachments[j] == ms[i].attachments[j];
        }
      }
    }
  }

  /** Every clock is set, unless there is no time to fall back on. */
  predicate Timed(v: Version) {
    v.updatedAt == 0 || (v.activityAt != 0 && forall k: Component :: v.Reg(k).clock != 0)
  }

  /**
   For every chat: its push is the chat itself exactly when every stamp is set, the transcript is
   defined and free of pixels, and draft, tier and mode are there.
   */
  lemma PushUnchangedExactly(v: Version)
    requires Shaped(v)
    ensures ForPush(v) == v
            <==> Timed(v) && v.transcript.fields[0].Some? && PixelFree(v.transcript.fields[0])
                 && v.draft.fields[0].Some? && v.forge.fields[0].Some? && v.forge.fields[0] != Some(Text(""))
                 && v.forge.fields[1].Some? && v.forge.fields[1].value.Flag?
  {
    StripFieldExactly(v.transcript.fields[0]);
    var p := ForPush(v);
    PushClocks(v);
    assert v.transcript.fields == [v.transcript.fields[0], v.transcript.fields[1]];
    assert v.draft.fields == [v.draft.fields[0]] && v.forge.fields == [v.forge.fields[0], v.forge.fields[1]];
    assert v.Reg(Transcript) == v.transcript && v.Reg(Title) == v.title && v.Reg(Model) == v.model;
    assert v.Reg(Draft) == v.draft && v.Reg(Forge) == v.forge;
  }

  lemma PushClocks(v: Version)
    requires Shaped(v)
    ensures forall k: Component :: ForPush(v).Reg(k).clock == OrInt(v.Reg(k).clock, v.updatedAt)
  {
    forall k: Component
      ensures ForPush(v).Reg(k).clock == OrInt(v.Reg(k).clock, v.updatedAt)
    {}
  }

  // ---- what a push means to another device ----

  /** Tier and mode need no default. */
  predicate Forged(v: Version)
    requires Shaped(v)
  {
    v.forge.fields[0] != Some(Text("")) && v.forge.fields[1].Some? && v.forge.fields[1].value.Flag?
  }

  /** Two chats are the same on the wire, component by component, exactly when they differ in pixels only. */
  lemma WireSameExactly(a: Version, b: Version, k: Component)
    requires Clean(a) && Clean(b) && (k == Forge ==> Forged(a) && Forged(b))
    ensures WireReg(a, k) == WireReg(b, k) <==> AlikeReg(a, b, k)
  {
    assert CleanReg(a.Reg(k)) && CleanReg(b.Reg(k));
    WireFollowsReg(a, b, k);
    match k {
      case Transcript =>
        StripFieldsAlike(a.transcript.fields[0], b.transcript.fields[0]);
        assert WireReg(a, k).fields[0] == StripField(a.transcript.fields[0]);
        assert WireReg(b, k).fields[0] == StripField(b.transcript.fields[0]);
        assert WireReg(a, k).fields[1] == a.transcript.fields[1] && WireReg(b, k).fields[1] == b.transcript.fields[1];
      case Title =>
      case Model =>
      case Draft =>
        assert WireReg(a, k).fields == a.draft.fields && WireReg(b, k).fields == b.draft.fields;
      case Forge =>
        assert WireReg(a, k).fields == a.forge.fields && WireReg(b, k).fields == b.forge.fields;
    }
  }

  /** A push is the chat but for pixels. */
  lemma PushIsAlike(v: Version)
    requires Complete(v)
    ensures Alike(ForPush(v), v) && Complete(ForPush(v))
  {
    assert CleanReg(v.Reg(Transcript)) && CleanReg(v.Reg(Draft)) && CleanReg(v.Reg(Forge));
    StrippedIsAlike(v.transcript.fields[0]);
    forall k: Component
      ensures AlikeReg(ForPush(v), v, k) && CleanReg(ForPush(v).Reg(k))
    {
      assert CleanReg(v.Reg(k));
      if k == Draft { assert ForPush(v).draft.fields == v.draft.fields; }
      if k == Forge { assert ForPush(v).forge.fields == v.forge.fields; }
    }
  }

  /** For every chat whatever, adopting its push gives what adopting the chat itself gives, but for pixels. */
  lemma AdoptedPushIsAlike(v: Version)
    requires Shaped(v)
    ensures Alike(Adopted(ForPush(v)), Adopted(v))
  {
    if v.transcript.fields[0].Some? { StrippedIsAlike(v.transcript.fields[0]); }
    forall k: Component
      ensures AlikeReg(Adopted(ForPush(v)), Adopted(v), k)
    {
      EchoClock(v.Reg(k).clock, v.updatedAt);
    }
  }

  lemma TakenAlike(c: Version, v: Version, k: Component)
    requires Shaped(c) && Complete(v)
    ensures AlikeReg(Merge(c, ForPush(v)), Merge(c, v), k)
  {
    PushIsAlike(v);
    var p := ForPush(v);
    assert AlikeReg(p, v, k) && CleanReg(p.Reg(k)) && CleanReg(v.Reg(k));
    assert p.Reg(k).fields[0].Some? && v.Reg(k).fields[0].Some?;
    assert BringsReg(c, p, k) <==> BringsReg(c, v, k);
    if BringsReg(c, v, k) {
      OverlaidAll(c.Reg(k).fields, p.Reg(k).fields);
      OverlaidAll(c.Reg(k).fields, v.Reg(k).fields);
    }
  }

  lemma OverlaidAll(older: seq<Field>, newer: seq<Field>)
    requires |older| == |newer| && forall i | 0 <= i < |newer| :: newer[i].Some?
    ensures Overlay(older, newer) == newer
  {}

  /** Merging a push into any chat gives what merging the chat itself gives, but for pixels. */
  lemma MergedPushIsAlike(c: Version, v: Version)
    requires Shaped(c) && Complete(v)
    ensures Alike(Merge(c, ForPush(v)), Merge(c, v))
  {
    forall k: Component
      ensures AlikeReg(Merge(c, ForPush(v)), Merge(c, v), k)
    {
      TakenAlike(c, v, k);
    }
    PushIsAlike(v);
  }

  /**
   A device that receives the push of a chat ends with the chat it would hold if the chat itself had
   reached it, but for pixels; a device that did not have the chat holds the sender's chat.
   */
  lemma PushReachesDevice(e: Device, v: Version)
    requires AllShaped(e.chats) && Complete(v) && !Dominated(e.deletes, v)
    ensures var got, whole := MergeOne(e, ForPush(v)), MergeOne(e, v);
            && HasChat(got, v.id) && HasChat(whole, v.id) && Alike(ChatOf(got, v.id), ChatOf(whole, v.id))
            && (!HasChat(e, v.id) ==> Alike(ChatOf(got, v.id), v))
  {
    assert !Dominated(e.deletes, ForPush(v));
    var i := Position(e.chats, v.id);
    if i < |e.chats| {
      ReplacedStays(e.chats, Merge(e.chats[i], v));
      ReplacedStays(e.chats, Merge(e.chats[i], ForPush(v)));
      MergedPushIsAlike(e.chats[i], v);
    } else {
      AdoptedPushIsAlike(v);
      AdoptedIsFaithful(v);
    }
  }

  /** An adopted chat has messages, a draft, a tier and a mode, and a chat without a title is a new chat. */
  lemma AdoptedIsShown(v: Version)
    requires Shaped(v)
    ensures var c := Adopted(v);
            && c.transcript.fields[0].Some? && c.draft.fields[0].Some?
            && c.title.fields[0] == (if v.title.fields[0].None? || v.title.fields[0] == Some(Text("")) then
                                       Some(Text("New chat")) else v.title.fields[0])
            && (c.forge.fields[0] == Some(Text("ember")) || c.forge.fields[0] == Some(Text("flame"))
                || c.forge.fields[0] == Some(Text("furnace")))
            && (c.forge.fields[1] == Some(Flag(true)) || c.forge.fields[1] == Some(Flag(false)))
            && (forall k: Component :: c.Reg(k).clock == Clock(v, k)) && c.updatedAt == v.updatedAt
  {}
}
