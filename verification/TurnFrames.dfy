/**
 How events travel: the server writes each as one `data:` line and a blank line, and heartbeats as
 comments in between (server.mjs, sseheartbeat.mjs); the page reads them back (`readSse` in
 public/app.js).
 */
module TurnFrames {
  import opened Sequences
  import opened Text
  import opened TurnStream

  /** The payload of a data line is decoded without the whitespace around it, and nothing else is. */
  lemma DataLineDecodes(decode: Decoder, w: string, payload: string, v: string)
    requires AllSpace(w) && AllSpace(v)
    ensures EventOfLine(decode, w + "data:" + payload + v) == decode(Trim(payload))
  {
    var a, c, b := TrimParts(payload);
    AllSpaceConcat(b, v);
    if c == "" {
      AllSpaceConcat(a, b + v);
      LineDecodes(decode, w, "", a + (b + v));
      TrimBlank("");
    } else {
      LineDecodes(decode, w, a + c, b + v);
      TrimOf(a, c, "");
      NoTail(a + c);
    }
    Regrouped(w, a, c, b, v);
  }

  lemma Regrouped(w: string, a: string, c: string, b: string, v: string)
    ensures w + "data:" + (a + c + b) + v == w + ("data:" + (a + c)) + (b + v)
    ensures c == "" ==> w + "data:" + (a + c + b) + v == w + ("data:" + "") + (a + (b + v))
  {}

  lemma LineDecodes(decode: Decoder, w: string, kept: string, v: string)
    requires AllSpace(w) && AllSpace(v) && (kept != "" ==> !IsSpace(kept[|kept| - 1]))
    ensures EventOfLine(decode, w + ("data:" + kept) + v) == decode(Trim(kept))
  {
    var core := "data:" + kept;
    assert core[0] == 'd' && core[|core| - 1] == if kept == "" then ':' else kept[|kept| - 1];
    TrimOf(w, core, v);
    assert core[..5] == "data:" && core[5..] == kept;
  }

  /** Exactly the lines that hold, after whitespace, "data:" and a payload that decodes carry an event. */
  lemma EventOfLineExactly(decode: Decoder, line: string, e: Event)
    ensures EventOfLine(decode, line) == Some(e) <==> exists w, payload :: DataLine(decode, line, w, payload, e)
  {
    if EventOfLine(decode, line) == Some(e) {
      var w, payload := DataLineParts(line);
      DataLineDecodes(decode, w, payload, "");
      NoTail(w + "data:" + payload);
      assert DataLine(decode, line, w, payload, e);
    }
    if w, payload :| DataLine(decode, line, w, payload, e) {
      DataLineDecodes(decode, w, payload, "");
      NoTail(w + "data:" + payload);
    }
  }

  lemma NoTail(s: string)
    ensures s + "" == s
  {}

  lemma DataLineParts(line: string) returns (w: string, payload: string)
    requires "data:" <= Trim(line)
    ensures AllSpace(w) && line == w + "data:" + payload
  {
    var c, v;
    w, c, v := TrimParts(line);
    payload := c[5..] + v;
    TakeData(w, c, v);
  }

  lemma TakeData(w: string, c: string, v: string)
    requires "data:" <= c
    ensures w + c + v == w + "data:" + (c[5..] + v)
  {
    assert c == "data:" + c[5..];
  }

  predicate DataLine(decode: Decoder, line: string, w: string, payload: string, e: Event) {
    AllSpace(w) && line == w + "data:" + payload && decode(Trim(payload)) == Some(e)
  }

  // ---- frames ----

  datatype Frame = Data(payload: string) | Comment(text: string)

  predicate OneLine(f: Frame) { '\n' !in if f.Data? then f.payload else f.text }

  /** What the server writes for a frame. */
  function FrameText(f: Frame): string {
    match f
    case Data(payload) => "data: " + payload + "\n\n"
    case Comment(text) => ":" + text + "\n\n"
  }

  function Stream(frames: seq<Frame>): string {
    if frames == [] then "" else FrameText(frames[0]) + Stream(frames[1..])
  }

  function Payloads(frames: seq<Frame>): seq<string> {
    if frames == [] then []
    else (if frames[0].Data? then [frames[0].payload] else []) + Payloads(frames[1..])
  }

  /** The payloads of the frames are these events, one each and in order. */
  predicate Spells(decode: Decoder, frames: seq<Frame>, es: seq<Event>) {
    && (forall f | f in frames :: OneLine(f)) && |Payloads(frames)| == |es|
    && forall k | 0 <= k < |es| :: decode(Trim(Payloads(frames)[k])) == Some(es[k])
  }

  /** The lines of a frame. */
  function FrameLines(f: Frame): (r: seq<string>)
    ensures |r| == 2
  {
    [if f.Data? then "data: " + f.payload else ":" + f.text, ""]
  }

  function LinesOf(frames: seq<Frame>): seq<string> {
    if frames == [] then [] else FrameLines(frames[0]) + LinesOf(frames[1..])
  }

  lemma {:induction false} StreamIsWire(frames: seq<Frame>)
    ensures Stream(frames) == Wire(LinesOf(frames))
    decreases |frames|
  {
    if frames != [] {
      StreamIsWire(frames[1..]);
      WireTwo(FrameLines(frames[0]), LinesOf(frames[1..]));
      FrameIsLines(frames[0]);
      assert FrameText(frames[0]) == FrameLines(frames[0])[0] + "\n" + "" + "\n";
    }
  }

  lemma FrameIsLines(f: Frame)
    ensures FrameText(f) == FrameLines(f)[0] + "\n" + "\n"
  {
    assert "\n\n" == "\n" + "\n";
  }

  lemma WireTwo(two: seq<string>, rest: seq<string>)
    requires |two| == 2 && two[1] == ""
    ensures Wire(two + rest) == two[0] + "\n" + "\n" + Wire(rest)
  {
    assert (two + rest)[1..][1..] == rest;
    assert Wire((two + rest)[1..]) == "" + "\n" + Wire(rest);
  }

  lemma {:induction false} NoBreaksInLines(frames: seq<Frame>)
    requires forall f | f in frames :: OneLine(f)
    ensures forall l | l in LinesOf(frames) :: '\n' !in l
    decreases |frames|
  {
    if frames != [] {
      NoBreaksInLines(frames[1..]);
      FrameHasNoBreaks(frames[0]);
    }
  }

  lemma FrameHasNoBreaks(f: Frame)
    requires OneLine(f)
    ensures '\n' !in FrameLines(f)[0] && '\n' !in FrameLines(f)[1]
  {
    var line := FrameLines(f)[0];
    forall k | 0 <= k < |line|
      ensures line[k] != '\n'
    {
      if f.Data? && k >= 6 { assert line[k] == f.payload[k - 6]; }
      if f.Comment? && k >= 1 { assert line[k] == f.text[k - 1]; }
    }
  }

  lemma TwoLines(f: string -> seq<Event>, a: string, b: string)
    ensures FlatMap(f, [a, b]) == f(a) + f(b)
  {
    assert [a, b][..1] == [a] && [a][..0] == [];
    assert FlatMap(f, [a]) == [] + f(a) == f(a);
  }

  lemma DataAtStart(decode: Decoder, payload: string)
    ensures EventOfLine(decode, "data:" + payload) == decode(Trim(payload))
  {
    DataLineDecodes(decode, "", payload, "");
    NothingAround("data:", payload);
  }

  lemma NothingAround(a: string, b: string)
    ensures "" + a + b + "" == a + b
  {}

  lemma PaddedLine(payload: string)
    ensures "data: " + payload == "data:" + (" " + payload)
  {
    assert "data: " == "data:" + " ";
  }

  lemma PaddingTrims(payload: string)
    ensures Trim(" " + payload) == Trim(payload)
  {
    TrimAround(" ", payload, "");
    assert " " + payload + "" == " " + payload;
  }

  /** The first line of a frame: a payload is decoded, a comment is nothing. */
  lemma FrameLineDecodes(decode: Decoder, f: Frame)
    ensures EventOfLine(decode, FrameLines(f)[0]) == if f.Data? then decode(Trim(f.payload)) else None
  {
    match f {
      case Data(payload) =>
        PaddedLine(payload);
        DataAtStart(decode, " " + payload);
        PaddingTrims(payload);
      case Comment(text) => CommentIsNone(decode, text);
    }
  }

  function EventsOfFrame(decode: Decoder, f: Frame): seq<Event> {
    if f.Data? && decode(Trim(f.payload)).Some? then [decode(Trim(f.payload)).value] else []
  }

  lemma FrameEvents(decode: Decoder, f: Frame)
    ensures EventsOf(decode, FrameLines(f)) == EventsOfFrame(decode, f)
  {
    var lines := FrameLines(f);
    BlankLineIsNone(decode);
    FrameLineDecodes(decode, f);
    assert lines == [lines[0], ""];
    TwoLines(LineEvents(decode), lines[0], "");
  }

  lemma BlankLineIsNone(decode: Decoder)
    ensures EventOfLine(decode, "") == None
  {
    TrimBlank("");
  }

  /** A comment is never taken for an event. */
  lemma CommentIsNone(decode: Decoder, text: string)
    ensures EventOfLine(decode, ":" + text) == None
  {
    var w, c, v := TrimParts(":" + text);
    assert (w + c + v)[0] == ':';
    if w == "" && c == "" { assert w + c + v == v; }
  }

  /** Frames that spell events deliver exactly these events, whatever comments stand between them. */
  lemma {:induction false} SpelledEvents(decode: Decoder, frames: seq<Frame>, es: seq<Event>)
    requires Spells(decode, frames, es)
    ensures EventsOf(decode, LinesOf(frames)) == es
    decreases |frames|
  {
    if frames != [] {
      var rest := if frames[0].Data? then es[1..] else es;
      SpellsRest(decode, frames, es);
      SpelledEvents(decode, frames[1..], rest);
      FirstSpelled(decode, frames, es);
      FrameEvents(decode, frames[0]);
      FlatMapConcat(LineEvents(decode), FrameLines(frames[0]), LinesOf(frames[1..]));
    }
  }

  lemma FirstSpelled(decode: Decoder, frames: seq<Frame>, es: seq<Event>)
    requires Spells(decode, frames, es) && frames != []
    ensures frames[0].Data? ==> es != []
    ensures es == EventsOfFrame(decode, frames[0]) + if frames[0].Data? then es[1..] else es
  {
    if frames[0].Data? {
      assert Payloads(frames)[0] == frames[0].payload;
      assert es == [es[0]] + es[1..];
    } else {
      assert [] + es == es;
    }
  }

  lemma SpellsRest(decode: Decoder, frames: seq<Frame>, es: seq<Event>)
    requires Spells(decode, frames, es) && frames != []
    ensures frames[0].Data? ==> es != []
    ensures Spells(decode, frames[1..], if frames[0].Data? then es[1..] else es)
  {
    var rest := Payloads(frames[1..]);
    if frames[0].Data? {
      assert Payloads(frames) == [frames[0].payload] + rest;
      assert forall k | 0 <= k < |rest| :: rest[k] == Payloads(frames)[k + 1];
    } else {
      assert Payloads(frames) == [] + rest == rest;
    }
  }

  /** A stream of frames cut anywhere, even inside a payload, delivers a prefix of its events. */
  lemma CutFramesDeliverPrefix(decode: Decoder, frames: seq<Frame>, es: seq<Event>, text: string)
    requires Spells(decode, frames, es) && text <= Stream(frames)
    ensures Received(decode, text) <= es
    ensures text == Stream(frames) ==> Received(decode, text) == es
  {
    StreamIsWire(frames);
    NoBreaksInLines(frames);
    SpelledEvents(decode, frames, es);
    CutDeliversPrefix(decode, LinesOf(frames), text);
    WireLines(LinesOf(frames));
  }
}
