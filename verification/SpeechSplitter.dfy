/**
 Cutting an answer into speakable chunks (`hardWrap` and `splitForSpeech` in public/app.js).
 */
module SpeechSplitter {
  import opened Sequences
  import opened Text

  const CHUNK: nat := 450
  const CHUNK_MAX: nat := 900

  predicate IsStop(c: char) { c == '.' || c == '!' || c == '?' }

  predicate IsBreak(c: char) { IsStop(c) || c == '\n' }

  predicate IsPlain(c: char) { !IsBreak(c) }

  predicate IsNewline(c: char) { c == '\n' }

  predicate IsWordChar(c: char) { !IsSpace(c) }

  /** What a listener hears: everything but whitespace and sentence stops. */
  predicate IsSpoken(c: char) { !IsSpace(c) && !IsStop(c) }

  /** The length of one match of `[^.!?\n]+(?:[.!?]+|\n+|$)` at the start of `t`. */
  function SentenceLength(t: string): (n: nat)
    requires t != "" && IsPlain(t[0])
    ensures 0 < n <= |t|
  {
    var n := RunLength(IsPlain, t);
    if n == |t| then n
    else if IsNewline(t[n]) then n + RunLength(IsNewline, t[n..])
    else n + RunLength(IsStop, t[n..])
  }

  /** All matches of the sentence pattern, left to right; characters between matches are skipped. */
  function Matches(t: string): seq<string>
    decreases |t|
  {
    if t == "" then []
    else if IsBreak(t[0]) then Matches(t[1..])
    else
      var n := SentenceLength(t);
      [t[..n]] + Matches(t[n..])
  }

  function Sentences(t: string): seq<string> {
    if Matches(t) == [] then [t] else Matches(t)
  }

  /** `s.split(/(\s+)/)`: words and the whitespace between them, alternating. */
  function Pieces(s: string): seq<string>
    decreases |s|, 1
  {
    var n := RunLength(IsWordChar, s);
    if n == |s| then [s]
    else [s[..n]] + GapFirst(s[n..])
  }

  /** The same for a text that starts with whitespace: the gap, then the pieces after it. */
  function GapFirst(s: string): seq<string>
    requires s != "" && IsSpace(s[0])
    decreases |s|, 0
  {
    var m := RunLength(IsSpace, s);
    [s[..m]] + Pieces(s[m..])
  }

  function Trims(groups: seq<string>): (r: seq<string>)
    ensures |r| == |groups|
  {
    if groups == [] then [] else Trims(groups[..|groups| - 1]) + [Trim(groups[|groups| - 1])]
  }

  /** Every group is emitted trimmed; a blank remainder at the end may be left out. */
  predicate Emits(groups: seq<string>, out: seq<string>) {
    || out == Trims(groups)
    || (groups != [] && Trim(groups[|groups| - 1]) == "" && out == Trims(groups[..|groups| - 1]))
  }

  /** Cuts `pieces` into consecutive groups no longer than `limit` unless one piece alone is. */
  predicate GreedyGroups(limit: nat, pieces: seq<string>, groups: seq<string>) {
    && Flatten(groups) == Flatten(pieces)
    && (forall g | g in groups :: g != "" && (|g| <= limit || g in pieces))
    && Tight(limit, pieces, groups)
  }

  /** A group was closed only because the next piece did not fit. */
  predicate Tight(limit: nat, pieces: seq<string>, groups: seq<string>) {
    forall k | 0 <= k < |groups| - 1 :: NoRoom(limit, pieces, groups[k], groups[k + 1])
  }

  /** The first piece of the next group did not fit any more. */
  predicate NoRoom(limit: nat, pieces: seq<string>, g: string, next: string) {
    exists p :: p in pieces && p <= next && |g| + |p| > limit
  }

  /** The state of the packing loop after `i` pieces. */
  ghost predicate Packing(limit: nat, pieces: seq<string>, i: nat, groups: seq<string>, buf: string)
    requires i <= |pieces|
  {
    && Flatten(groups) + buf == Flatten(pieces[..i])
    && (forall g | g in groups :: g != "" && (|g| <= limit || g in pieces))
    && (buf == "" || |buf| <= limit || buf in pieces)
    && (groups != [] ==> NoRoom(limit, pieces, groups[|groups| - 1], buf))
    && Tight(limit, pieces, groups)
  }

  lemma TightSnoc(limit: nat, pieces: seq<string>, groups: seq<string>, buf: string)
    requires Tight(limit, pieces, groups) && (groups != [] ==> NoRoom(limit, pieces, groups[|groups| - 1], buf))
    ensures Tight(limit, pieces, groups + [buf])
  {}

  lemma PrefixFlattens(pieces: seq<string>, i: nat)
    requires i < |pieces|
    ensures Flatten(pieces[..i + 1]) == Flatten(pieces[..i]) + pieces[i]
  {
    PrefixSnoc(pieces, i);
    FlattenSnoc(pieces[..i], pieces[i]);
  }

  lemma PackingFlushes(limit: nat, pieces: seq<string>, i: nat, groups: seq<string>, buf: string)
    requires i < |pieces| && Packing(limit, pieces, i, groups, buf)
    requires buf != "" && |buf| + |pieces[i]| > limit
    ensures Packing(limit, pieces, i + 1, groups + [buf], "" + pieces[i])
  {
    assert "" + pieces[i] == pieces[i];
    PrefixFlattens(pieces, i);
    FlattenSnoc(groups, buf);
    assert pieces[i] in pieces && pieces[i] <= pieces[i];
    assert NoRoom(limit, pieces, buf, pieces[i]);
    TightSnoc(limit, pieces, groups, buf);
  }

  lemma PackingAppends(limit: nat, pieces: seq<string>, i: nat, groups: seq<string>, buf: string)
    requires i < |pieces| && Packing(limit, pieces, i, groups, buf)
    requires buf == "" || |buf| + |pieces[i]| <= limit
    ensures Packing(limit, pieces, i + 1, groups, buf + pieces[i])
  {
    PrefixFlattens(pieces, i);
    assert Flatten(groups) + (buf + pieces[i]) == Flatten(groups) + buf + pieces[i];
    assert buf == "" ==> buf + pieces[i] == pieces[i];
    if groups != [] {
      StillNoRoom(limit, pieces, groups[|groups| - 1], buf, pieces[i]);
    }
  }

  lemma StillNoRoom(limit: nat, pieces: seq<string>, g: string, buf: string, piece: string)
    requires NoRoom(limit, pieces, g, buf)
    ensures NoRoom(limit, pieces, g, buf + piece)
  {
    var p :| p in pieces && p <= buf && |g| + |p| > limit;
    assert p <= buf + piece;
  }

  lemma TrimsSnoc(groups: seq<string>, g: string)
    ensures Trims(groups + [g]) == Trims(groups) + [Trim(g)]
    ensures Trim(g) == "" ==> Emits(groups + [g], Trims(groups))
  {
    assert (groups + [g])[..|groups|] == groups;
  }

  lemma PackingEnds(limit: nat, pieces: seq<string>, groups: seq<string>, buf: string)
    requires Packing(limit, pieces, |pieces|, groups, buf)
    ensures GreedyGroups(limit, pieces, if buf == "" then groups else groups + [buf])
  {
    assert pieces[..|pieces|] == pieces;
    FlattenSnoc(groups, buf);
    assert buf == "" ==> Flatten(groups) + buf == Flatten(groups);
    TightSnoc(limit, pieces, groups, buf);
  }

  /** Closed groups and the open one after packing: a piece that does not fit closes the open group. */
  function PackState(limit: nat, pieces: seq<string>): (r: (seq<string>, string)) {
    if pieces == [] then ([], "")
    else
      var (groups, buf) := PackState(limit, pieces[..|pieces| - 1]);
      var piece := pieces[|pieces| - 1];
      if buf != "" && |buf| + |piece| > limit then (groups + [buf], piece) else (groups, buf + piece)
  }

  /** The groups the packing loop forms. */
  function Greedy(limit: nat, pieces: seq<string>): seq<string> {
    var (groups, buf) := PackState(limit, pieces);
    if buf == "" then groups else groups + [buf]
  }

  lemma {:induction false} PackStateIsPacking(limit: nat, pieces: seq<string>, i: nat)
    requires i <= |pieces|
    ensures var (groups, buf) := PackState(limit, pieces[..i]); Packing(limit, pieces, i, groups, buf)
    decreases i
  {
    if i > 0 {
      PackStateIsPacking(limit, pieces, i - 1);
      assert pieces[..i][..i - 1] == pieces[..i - 1];
      var (groups, buf) := PackState(limit, pieces[..i - 1]);
      if buf != "" && |buf| + |pieces[i - 1]| > limit {
        PackingFlushes(limit, pieces, i - 1, groups, buf);
        assert "" + pieces[i - 1] == pieces[i - 1];
      } else {
        PackingAppends(limit, pieces, i - 1, groups, buf);
      }
    }
  }

  /** They cut the pieces into groups within the limit, each closed only for lack of room. */
  lemma GreedyIsGreedy(limit: nat, pieces: seq<string>)
    ensures GreedyGroups(limit, pieces, Greedy(limit, pieces))
  {
    PackStateIsPacking(limit, pieces, |pieces|);
    assert pieces[..|pieces|] == pieces;
    var (groups, buf) := PackState(limit, pieces);
    PackingEnds(limit, pieces, groups, buf);
  }

  /** The packing loop that both source functions contain. */
  method Pack(limit: nat, pieces: seq<string>) returns (out: seq<string>)
    ensures Emits(Greedy(limit, pieces), out) && GreedyGroups(limit, pieces, Greedy(limit, pieces))
    ensures Filter(IsWordChar, Flatten(out)) == Filter(IsWordChar, Flatten(pieces))
    ensures Subsequence(Flatten(out), Flatten(pieces))
  {
    out := [];
    ghost var groups: seq<string> := [];
    var buf := "";
    for i := 0 to |pieces|
      invariant PackState(limit, pieces[..i]) == (groups, buf) && out == Trims(groups)
    {
      assert pieces[..i + 1][..i] == pieces[..i];
      if buf != "" && |buf| + |pieces[i]| > limit {
        TrimsSnoc(groups, buf);
        out := out + [Trim(buf)];
        groups := groups + [buf];
        buf := "";
        assert buf + pieces[i] == pieces[i];
      }
      buf := buf + pieces[i];
    }
    assert pieces[..|pieces|] == pieces;
    if buf != "" {
      TrimsSnoc(groups, buf);
      groups := groups + [buf];
    }
    if Trim(buf) != "" {
      out := out + [Trim(buf)];
    }
    GreedyIsGreedy(limit, pieces);
    EmittedKeeps(groups, out);
  }

  // ---- what trimming and packing keep ----

  lemma TrimKeepsSolid(s: string)
    ensures Filter(IsWordChar, Trim(s)) == Filter(IsWordChar, s)
  {
    var lo, hi := TrimIsSlice(s);
    assert s == s[..lo] + (s[lo..hi] + s[hi..]);
    FilterConcat(IsWordChar, s[..lo], s[lo..hi] + s[hi..]);
    FilterConcat(IsWordChar, s[lo..hi], s[hi..]);
    FilterDropsAll(IsWordChar, s[..lo]);
    FilterDropsAll(IsWordChar, s[hi..]);
  }

  lemma {:induction false} TrimsKeep(groups: seq<string>)
    ensures Filter(IsWordChar, Flatten(Trims(groups))) == Filter(IsWordChar, Flatten(groups))
    ensures Subsequence(Flatten(Trims(groups)), Flatten(groups))
    decreases |groups|
  {
    if groups != [] {
      var init, last := groups[..|groups| - 1], groups[|groups| - 1];
      SplitLast(groups);
      TrimsKeep(init);
      FlattenSnoc(init, last);
      FlattenSnoc(Trims(init), Trim(last));
      TrimKeepsSolid(last);
      FilterConcat(IsWordChar, Flatten(init), last);
      FilterConcat(IsWordChar, Flatten(Trims(init)), Trim(last));
      TrimSubsequence(last);
      SubsequenceConcat(Flatten(Trims(init)), Flatten(init), Trim(last), last);
    }
  }

  lemma EmittedKeeps(groups: seq<string>, out: seq<string>)
    requires Emits(groups, out)
    ensures Filter(IsWordChar, Flatten(out)) == Filter(IsWordChar, Flatten(groups))
    ensures Subsequence(Flatten(out), Flatten(groups))
  {
    TrimsKeep(groups);
    if out != Trims(groups) {
      FlattenSnoc(out, "");
      assert Flatten(out) + "" == Flatten(out);
    }
  }

  lemma {:induction false} TrimsMembers(groups: seq<string>)
    ensures forall t | t in Trims(groups) :: exists g :: g in groups && t == Trim(g)
    decreases |groups|
  {
    if groups != [] {
      var init := groups[..|groups| - 1];
      TrimsMembers(init);
      SplitLast(groups);
    }
  }

  lemma {:induction false} PiecesConserve(s: string)
    ensures Flatten(Pieces(s)) == s
    decreases |s|, 1
  {
    var n := RunLength(IsWordChar, s);
    if n == |s| {
      assert Flatten([s]) == s;
    } else {
      GapConserves(s[n..]);
      FlattenCons(s[..n], GapFirst(s[n..]));
    }
  }

  lemma {:induction false} GapConserves(s: string)
    requires s != "" && IsSpace(s[0])
    ensures Flatten(GapFirst(s)) == s
    decreases |s|, 0
  {
    var m := RunLength(IsSpace, s);
    PiecesConserve(s[m..]);
    FlattenCons(s[..m], Pieces(s[m..]));
  }

  lemma FlattenCons(a: string, rest: seq<string>)
    ensures Flatten([a] + rest) == a + Flatten(rest)
  {
    assert ([a] + rest)[1..] == rest;
  }

  /** A piece is all whitespace or all word. */
  lemma {:induction false} PiecesAreUniform(s: string)
    ensures forall p | p in Pieces(s) :: Uniform(p)
    decreases |s|, 1
  {
    var n := RunLength(IsWordChar, s);
    assert Uniform(s[..n]);
    if n < |s| {
      GapsAreUniform(s[n..]);
    } else {
      assert s[..n] == s;
    }
  }

  lemma {:induction false} GapsAreUniform(s: string)
    requires s != "" && IsSpace(s[0])
    ensures forall p | p in GapFirst(s) :: Uniform(p)
    decreases |s|, 0
  {
    var m := RunLength(IsSpace, s);
    assert Uniform(s[..m]);
    PiecesAreUniform(s[m..]);
  }

  predicate Uniform(p: string) {
    (forall k | 0 <= k < |p| :: IsSpace(p[k])) || (forall k | 0 <= k < |p| :: !IsSpace(p[k]))
  }

  lemma {:induction false} MatchesConserve(t: string)
    ensures Filter(IsSpoken, Flatten(Matches(t))) == Filter(IsSpoken, t)
    ensures Subsequence(Flatten(Matches(t)), t)
    decreases |t|
  {
    if t != "" {
      if IsBreak(t[0]) {
        MatchesConserve(t[1..]);
      } else {
        var n := SentenceLength(t);
        MatchesConserve(t[n..]);
        assert t == t[..n] + t[n..];
        FilterConcat(IsSpoken, t[..n], t[n..]);
        FilterConcat(IsSpoken, t[..n], Flatten(Matches(t[n..])));
        SubsequenceRefl(t[..n]);
        SubsequenceConcat(t[..n], t[..n], Flatten(Matches(t[n..])), t[n..]);
      }
    }
  }

  lemma SentencesConserve(t: string)
    ensures Filter(IsSpoken, Flatten(Sentences(t))) == Filter(IsSpoken, t)
    ensures Subsequence(Flatten(Sentences(t)), t)
  {
    MatchesConserve(t);
    if Matches(t) == [] {
      assert Flatten([t]) == t;
      SubsequenceRefl(t);
    }
  }

  lemma {:induction false} SpokenAreSolid(s: string)
    ensures Filter(IsSpoken, Filter(IsWordChar, s)) == Filter(IsSpoken, s)
    decreases |s|
  {
    if s != "" {
      SpokenAreSolid(s[1..]);
      var kept := Filter(IsWordChar, s[1..]);
      if IsWordChar(s[0]) {
        assert Filter(IsWordChar, s) == [s[0]] + kept && ([s[0]] + kept)[1..] == kept;
      } else {
        assert Filter(IsWordChar, s) == [] + kept == kept;
        assert Filter(IsSpoken, s) == [] + Filter(IsSpoken, s[1..]);
      }
    }
  }

  // ---- which stops are kept ----

  datatype Mode = Silent | InText | InStops | InLines

  /** Text is always kept, stops only behind text or kept stops, newlines behind text or kept newlines. */
  function NextMode(m: Mode, c: char): Mode {
    if IsPlain(c) then InText
    else if IsStop(c) then if m == InText || m == InStops then InStops else Silent
    else if m == InText || m == InLines then InLines else Silent
  }

  /** What is kept of a text, character by character. */
  function KeptFrom(t: string, m: Mode): string {
    if t == "" then ""
    else
      var next := NextMode(m, t[0]);
      (if next.Silent? then "" else [t[0]]) + KeptFrom(t[1..], next)
  }

  predicate HasText(t: string) { exists k :: 0 <= k < |t| && IsPlain(t[k]) }

  /** What is left to speak: text with the stops and newlines that end it, or everything if there is no text. */
  function SpeakableText(t: string): string {
    if HasText(t) then KeptFrom(t, Silent) else t
  }

  lemma {:induction false} KeptRun(t: string, m: Mode, stay: Mode, n: nat)
    requires n <= |t| && stay != Silent && (n > 0 ==> NextMode(m, t[0]) == stay)
    requires forall k | 1 <= k < n :: NextMode(stay, t[k]) == stay
    ensures n > 0 ==> KeptFrom(t, m) == t[..n] + KeptFrom(t[n..], stay)
    decreases n
  {
    if n > 1 {
      var u := t[1..];
      assert forall k | 0 <= k < n - 1 :: u[k] == t[k + 1];
      KeptRun(u, stay, stay, n - 1);
      Prepended(t, u, n, KeptFrom(t[n..], stay));
    } else if n == 1 {
      assert t[..1] == [t[0]];
    }
  }

  lemma Prepended(t: string, u: string, n: nat, rest: string)
    requires 1 <= n <= |t| && u == t[1..]
    ensures t[..n] + rest == [t[0]] + (u[..n - 1] + rest) && u[n - 1..] == t[n..]
  {
    assert t[..n] == [t[0]] + u[..n - 1];
  }

  /** The first `n` characters are kept, and change the mode. */
  predicate Keeps(t: string, from: Mode, n: nat, to: Mode) {
    n <= |t| && KeptFrom(t, from) == t[..n] + KeptFrom(t[n..], to)
  }

  lemma KeepsOn(t: string, from: Mode, a: nat, mid: Mode, b: nat, to: Mode)
    requires Keeps(t, from, a, mid) && Keeps(t[a..], mid, b, to)
    ensures Keeps(t, from, a + b, to)
  {
    Regroup(t, a, b, KeptFrom(t[a..][b..], to));
  }

  lemma Regroup(t: string, a: nat, b: nat, rest: string)
    requires a + b <= |t|
    ensures t[..a] + (t[a..][..b] + rest) == t[..a + b] + rest && t[a..][b..] == t[a + b..]
  {
    assert t[..a + b] == t[..a] + t[a..][..b];
  }

  lemma TextKept(t: string)
    requires t != "" && IsPlain(t[0])
    ensures Keeps(t, Silent, RunLength(IsPlain, t), InText)
  {
    KeptRun(t, Silent, InText, RunLength(IsPlain, t));
  }

  lemma StopsKept(end: string)
    requires end != "" && IsStop(end[0])
    ensures var r := RunLength(IsStop, end); KeptFrom(end, InText) == end[..r] + KeptFrom(end[r..], Silent)
  {
    var r := RunLength(IsStop, end);
    KeptRun(end, InText, InStops, r);
    RunIsWhole(end[r..], InStops);
  }

  lemma LinesKept(end: string)
    requires end != "" && IsNewline(end[0])
    ensures var r := RunLength(IsNewline, end); KeptFrom(end, InText) == end[..r] + KeptFrom(end[r..], Silent)
  {
    var r := RunLength(IsNewline, end);
    KeptRun(end, InText, InLines, r);
    RunIsWhole(end[r..], InLines);
  }

  /** The length of the run of stops or newlines that ends a text. */
  function EndLength(end: string): (r: nat)
    ensures r <= |end|
  {
    if end == "" then 0
    else if IsNewline(end[0]) then RunLength(IsNewline, end)
    else RunLength(IsStop, end)
  }

  lemma SentenceEnds(t: string)
    requires t != "" && IsPlain(t[0])
    ensures SentenceLength(t) == RunLength(IsPlain, t) + EndLength(t[RunLength(IsPlain, t)..])
  {
    var m := RunLength(IsPlain, t);
    if m < |t| { assert t[m..][0] == t[m]; }
  }

  /** Behind the text: nothing, or the run of stops or newlines that ends it. */
  lemma EndKept(end: string)
    requires end != "" ==> IsBreak(end[0])
    ensures Keeps(end, InText, EndLength(end), Silent)
  {
    if end == "" {
      assert end[..0] == "" && end[0..] == "";
    } else if IsNewline(end[0]) {
      LinesKept(end);
    } else {
      StopsKept(end);
    }
  }

  /** A sentence is kept whole, and what follows it is no part of its run. */
  lemma SentenceKept(t: string)
    requires t != "" && IsPlain(t[0])
    ensures Keeps(t, Silent, SentenceLength(t), Silent)
  {
    var m := RunLength(IsPlain, t);
    TextKept(t);
    SentenceEnds(t);
    EndKept(t[m..]);
    KeepsOn(t, Silent, m, InText, EndLength(t[m..]), Silent);
  }

  lemma RunIsWhole(rest: string, stay: Mode)
    requires (stay == InLines && (rest != "" ==> !IsNewline(rest[0])))
             || (stay == InStops && (rest != "" ==> !IsStop(rest[0])))
    ensures KeptFrom(rest, stay) == KeptFrom(rest, Silent)
  {}

  lemma {:induction false} MatchesKeep(t: string)
    ensures Flatten(Matches(t)) == KeptFrom(t, Silent)
    decreases |t|
  {
    if t != "" {
      if IsBreak(t[0]) {
        MatchesKeep(t[1..]);
        assert "" + KeptFrom(t[1..], Silent) == KeptFrom(t[1..], Silent);
      } else {
        var n := SentenceLength(t);
        SentenceKept(t);
        MatchesKeep(t[n..]);
        FlattenCons(t[..n], Matches(t[n..]));
      }
    }
  }

  lemma {:induction false} MatchesNeedText(t: string)
    ensures Matches(t) == [] <==> !HasText(t)
    decreases |t|
  {
    if t != "" {
      if IsBreak(t[0]) {
        MatchesNeedText(t[1..]);
        assert forall k | 0 <= k < |t| - 1 :: t[1..][k] == t[k + 1];
      } else {
        assert IsPlain(t[0]);
      }
    }
  }

  /** The sentences hold exactly the text and the stops and newlines that end it. */
  lemma SentencesKeepExactly(t: string)
    ensures Flatten(Sentences(t)) == SpeakableText(t)
  {
    MatchesNeedText(t);
    if HasText(t) {
      MatchesKeep(t);
    } else {
      assert Flatten([t]) == t;
    }
  }

  predicate FitsOneRequest(c: string) {
    |c| <= 900 || forall k | 0 <= k < |c| :: !IsSpace(c[k])
  }

  lemma TrimmedGroupFits(s: string, g: string)
    requires |g| <= CHUNK_MAX || g in Pieces(s)
    ensures FitsOneRequest(Trim(g))
  {
    var lo, hi := TrimIsSlice(g);
    TrimStartsSolid(g);
    PiecesAreUniform(s);
    assert forall k | 0 <= k < |Trim(g)| :: Trim(g)[k] == g[lo + k];
  }

  lemma TrimStartsSolid(s: string)
    ensures Trim(s) != "" ==> !IsSpace(Trim(s)[0])
  {
    var t := TrimStart(s);
    assert TrimEnd(t) <= t;
  }

  /** What hard-wrapping makes of one chunk: itself, or its words packed up to the cap. */
  function Wrapped(s: string): seq<string> {
    if |s| <= CHUNK_MAX then [s] else Trims(Greedy(CHUNK_MAX, Pieces(s)))
  }

  /** Hard-wrap one oversized stretch at word boundaries. */
  method HardWrap(s: string) returns (parts: seq<string>)
    ensures Filter(NotBlank, parts) == Filter(NotBlank, Wrapped(s))
    ensures forall p | p in parts :: FitsOneRequest(p)
    ensures Filter(IsWordChar, Flatten(parts)) == Filter(IsWordChar, s)
    ensures Subsequence(Flatten(parts), s)
    ensures |s| <= CHUNK_MAX ==> parts == [s]
  {
    if |s| <= CHUNK_MAX {
      assert Flatten([s]) == s;
      SubsequenceRefl(s);
      return [s];
    }
    parts := Pack(CHUNK_MAX, Pieces(s));
    ghost var groups := Greedy(CHUNK_MAX, Pieces(s));
    PiecesConserve(s);
    BlankEndDropped(groups, parts);
    TrimsMembers(groups);
    if groups != [] {
      TrimsMembers(groups[..|groups| - 1]);
    }
    forall p | p in parts
      ensures FitsOneRequest(p)
    {
      var g :| g in groups && p == Trim(g);
      TrimmedGroupFits(s, g);
    }
  }

  lemma {:induction false} DroppingBlanks(parts: seq<string>)
    ensures Flatten(Filter(NotBlank, parts)) == Flatten(parts)
    decreases |parts|
  {
    if parts != [] {
      DroppingBlanks(parts[1..]);
      FlattenConcat(if NotBlank(parts[0]) then [parts[0]] else [], Filter(NotBlank, parts[1..]));
      assert Flatten([parts[0]]) == parts[0];
    }
  }

  predicate NotBlank(s: string) { s != "" }

  /** The chunks of a text: its sentences packed, trimmed and wrapped, blank ones left out. */
  function ChunksOf(t: string): seq<string> {
    Filter(NotBlank, FlatMap(Wrapped, Trims(Greedy(CHUNK, Sentences(t)))))
  }

  /**
   For every text: the chunks are exactly its greedily packed sentences, trimmed and hard-wrapped.
   What is spoken is the text's own letters, in order, none lost and none repeated; nothing is
   invented; no chunk is empty; and no chunk exceeds one request unless it is a single word.
   */
  method SplitForSpeech(t: string) returns (chunks: seq<string>)
    ensures chunks == ChunksOf(t) && GreedyGroups(450, Sentences(t), Greedy(CHUNK, Sentences(t)))
    ensures Filter(IsSpoken, Flatten(chunks)) == Filter(IsSpoken, t)
    ensures Filter(IsWordChar, Flatten(chunks)) == Filter(IsWordChar, SpeakableText(t))
    ensures Subsequence(Flatten(chunks), t)
    ensures forall c | c in chunks :: c != "" && FitsOneRequest(c)
  {
    var out := Pack(CHUNK, Sentences(t));
    SentencesConserve(t);
    chunks := WrapAll(out);
    WrappedEndDropped(Greedy(CHUNK, Sentences(t)), out);
    SentencesKeepExactly(t);
    SpokenAreSolid(Flatten(chunks));
    SpokenAreSolid(Flatten(Sentences(t)));
    SubsequenceTrans(Flatten(out), Flatten(Sentences(t)), t);
    SubsequenceTrans(Flatten(chunks), Flatten(out), t);
  }

  lemma BlankEndDropped(groups: seq<string>, out: seq<string>)
    requires Emits(groups, out)
    ensures Filter(NotBlank, out) == Filter(NotBlank, Trims(groups))
  {
    if out != Trims(groups) {
      FilterConcat(NotBlank, out, [""]);
      assert Trims(groups) == out + [""];
    }
  }

  lemma WrappedEndDropped(groups: seq<string>, out: seq<string>)
    requires Emits(groups, out)
    ensures Filter(NotBlank, FlatMap(Wrapped, out)) == Filter(NotBlank, FlatMap(Wrapped, Trims(groups)))
  {
    if out != Trims(groups) {
      assert Trims(groups) == out + [""];
      assert (out + [""])[..|out|] == out;
      assert FlatMap(Wrapped, out + [""]) == FlatMap(Wrapped, out) + [""];
      FilterConcat(NotBlank, FlatMap(Wrapped, out), [""]);
    }
  }

  /** `out.flatMap(hardWrap).filter(Boolean)`. */
  method WrapAll(out: seq<string>) returns (chunks: seq<string>)
    ensures SpeaksSame(chunks, out) && chunks == Filter(NotBlank, FlatMap(Wrapped, out))
  {
    chunks := [];
    for i := 0 to |out|
      invariant SpeaksSame(chunks, out[..i]) && chunks == Filter(NotBlank, FlatMap(Wrapped, out[..i]))
    {
      assert out[..i + 1][..i] == out[..i];
      FilterConcat(NotBlank, FlatMap(Wrapped, out[..i]), Wrapped(out[i]));
      var parts := HardWrap(out[i]);
      SpeaksSameExtends(chunks, out, i, parts);
      chunks := chunks + Filter(NotBlank, parts);
    }
    assert out[..|out|] == out;
  }

  /** `chunks` say what `texts` say, in order, with nothing added, in chunks that may be sent. */
  ghost predicate SpeaksSame(chunks: seq<string>, texts: seq<string>) {
    && Filter(IsWordChar, Flatten(chunks)) == Filter(IsWordChar, Flatten(texts))
    && Subsequence(Flatten(chunks), Flatten(texts))
    && forall c | c in chunks :: c != "" && FitsOneRequest(c)
  }

  lemma SpeaksSameExtends(chunks: seq<string>, out: seq<string>, i: nat, parts: seq<string>)
    requires i < |out| && SpeaksSame(chunks, out[..i]) && Subsequence(Flatten(parts), out[i])
    requires Filter(IsWordChar, Flatten(parts)) == Filter(IsWordChar, out[i])
    requires forall p | p in parts :: FitsOneRequest(p)
    ensures SpeaksSame(chunks + Filter(NotBlank, parts), out[..i + 1])
  {
    var kept := Filter(NotBlank, parts);
    DroppingBlanks(parts);
    forall c | c in kept
      ensures c != "" && FitsOneRequest(c)
    {
      FilterMembers(NotBlank, parts, c);
    }
    PrefixFlattens(out, i);
    FlattenConcat(chunks, kept);
    SaysSame(Flatten(chunks), Flatten(out[..i]), Flatten(kept), out[i]);
  }

  lemma SaysSame(a: string, b: string, c: string, d: string)
    requires Filter(IsWordChar, a) == Filter(IsWordChar, b) && Subsequence(a, b)
    requires Filter(IsWordChar, c) == Filter(IsWordChar, d) && Subsequence(c, d)
    ensures Filter(IsWordChar, a + c) == Filter(IsWordChar, b + d) && Subsequence(a + c, b + d)
  {
    FilterConcat(IsWordChar, a, c);
    FilterConcat(IsWordChar, b, d);
    SubsequenceConcat(a, b, c, d);
  }
}
