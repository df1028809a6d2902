/** JavaScript string operations the models share, with strings as sequences of code points. */
module Text {
  import opened Sequences

  /** The class `\s`, which is also what `trim` removes. */
  predicate IsSpace(c: char) {
    || c == ' ' || '\U{0009}' <= c <= '\U{000D}' || c == '\U{00A0}' || c == '\U{1680}'
    || '\U{2000}' <= c <= '\U{200A}' || c == '\U{2028}' || c == '\U{2029}'
    || c == '\U{202F}' || c == '\U{205F}' || c == '\U{3000}' || c == '\U{FEFF}'
  }

  /** The length of the longest prefix whose characters all satisfy `p`. */
  function RunLength(p: char -> bool, s: string): (n: nat)
    ensures n <= |s|
    ensures forall k | 0 <= k < n :: p(s[k])
    ensures n < |s| ==> !p(s[n])
  {
    if s != "" && p(s[0]) then
      var rest := RunLength(p, s[1..]);
      assert forall k | 0 < k < rest + 1 :: s[k] == s[1..][k - 1];
      rest + 1
    else 0
  }

  /** A maximal run is determined by what it stops at. */
  lemma {:induction false} RunLengthUnique(p: char -> bool, s: string, n: nat)
    requires n <= |s| && forall k | 0 <= k < n :: p(s[k])
    requires n < |s| ==> !p(s[n])
    ensures RunLength(p, s) == n
  {
    var m := RunLength(p, s);
    assert m < |s| ==> !p(s[m]);
    assert n < |s| ==> !p(s[n]);
  }

  function TrimStart(s: string): string {
    s[RunLength(IsSpace, s)..]
  }

  function TrimEnd(s: string): (r: string)
    ensures r <= s
    ensures forall k | |r| <= k < |s| :: IsSpace(s[k])
    ensures r != "" ==> !IsSpace(r[|r| - 1])
  {
    if s != "" && IsSpace(s[|s| - 1]) then TrimEnd(s[..|s| - 1]) else s
  }

  function Trim(s: string): string {
    TrimEnd(TrimStart(s))
  }

  /** Trimming cuts whitespace off both ends and nothing else. */
  lemma TrimIsSlice(s: string) returns (lo: nat, hi: nat)
    ensures lo <= hi <= |s| && Trim(s) == s[lo..hi]
    ensures forall k | 0 <= k < lo || hi <= k < |s| :: IsSpace(s[k])
  {
    lo := RunLength(IsSpace, s);
    var t := TrimStart(s);
    var r := TrimEnd(t);
    hi := lo + |r|;
    assert r == t[..|r|] == s[lo..hi];
    forall k | hi <= k < |s|
      ensures IsSpace(s[k])
    {
      assert s[k] == t[k - lo];
    }
  }

  predicate AllSpace(s: string) { forall k | 0 <= k < |s| :: IsSpace(s[k]) }

  lemma {:induction false} TrimEndIs(s: string, n: nat)
    requires n <= |s| && AllSpace(s[n..]) && (n > 0 ==> !IsSpace(s[n - 1]))
    ensures TrimEnd(s) == s[..n]
    decreases |s|
  {
    if n < |s| {
      assert s[n..][|s| - 1 - n] == s[|s| - 1];
      var init := s[..|s| - 1];
      assert init[n..] == s[n..][..|s| - 1 - n];
      TrimEndIs(init, n);
    } else {
      assert s[..n] == s;
    }
  }

  predicate Solid(s: string) { s != "" && !IsSpace(s[0]) && !IsSpace(s[|s| - 1]) }

  lemma AllSpaceConcat(a: string, b: string)
    requires AllSpace(a) && AllSpace(b)
    ensures AllSpace(a + b)
  {}

  /** Trimming takes the whitespace off a solid text. */
  lemma TrimOf(w: string, c: string, v: string)
    requires AllSpace(w) && Solid(c) && AllSpace(v)
    ensures Trim(w + c + v) == c
  {
    var s := w + c + v;
    RunLengthUnique(IsSpace, s, |w|);
    var t := s[|w|..];
    assert t == c + v;
    assert t[|c|..] == v && t[..|c|] == c;
    TrimEndIs(t, |c|);
  }

  lemma TrimBlank(s: string)
    requires AllSpace(s)
    ensures Trim(s) == ""
  {
    RunLengthUnique(IsSpace, s, |s|);
  }

  /** Every text is what trimming leaves of it, between two stretches of whitespace. */
  lemma TrimParts(s: string) returns (w: string, c: string, v: string)
    ensures s == w + c + v && AllSpace(w) && AllSpace(v) && Trim(s) == c && (c == "" || Solid(c))
  {
    var t := TrimStart(s);
    c := Trim(s);
    w, v := s[..RunLength(IsSpace, s)], t[|c|..];
    assert t == c + v && s == w + t;
  }

  /** Whitespace around a text does not matter. */
  lemma TrimAround(w: string, s: string, v: string)
    requires AllSpace(w) && AllSpace(v)
    ensures Trim(w + s + v) == Trim(s)
  {
    var a, c, b := TrimParts(s);
    AllSpaceConcat(w, a);
    AllSpaceConcat(b, v);
    AroundParts(w, a, c, b, v);
    if c == "" {
      AllSpaceConcat(w + a, b + v);
      TrimBlank((w + a) + (b + v));
    } else {
      TrimOf(w + a, c, b + v);
    }
  }

  lemma AroundParts(w: string, a: string, c: string, b: string, v: string)
    ensures w + (a + c + b) + v == (w + a) + c + (b + v)
    ensures c == "" ==> w + (a + c + b) + v == (w + a) + (b + v)
  {}

  lemma TrimSubsequence(s: string)
    ensures Subsequence(Trim(s), s)
  {
    var lo, hi := TrimIsSlice(s);
    SliceSubsequence(s, lo, hi);
  }

  /** `s.split(sep)` for a one-character separator; never empty. */
  function Split(s: string, sep: char): (r: seq<string>)
    ensures r != []
  {
    if s == "" then [""]
    else
      var rest := Split(s[1..], sep);
      if s[0] == sep then [""] + rest else [[s[0]] + rest[0]] + rest[1..]
  }

  /** `parts.join(sep)`. */
  function Join(parts: seq<string>, sep: char): string {
    if parts == [] then ""
    else if |parts| == 1 then parts[0]
    else parts[0] + [sep] + Join(parts[1..], sep)
  }

  lemma {:induction false} JoinSplit(s: string, sep: char)
    ensures Join(Split(s, sep), sep) == s
    ensures forall p | p in Split(s, sep) :: sep !in p
  {
    if s != "" {
      JoinSplit(s[1..], sep);
      var rest := Split(s[1..], sep);
      SplitFirst(s);
      if s[0] == sep {
        JoinCons("", rest, sep);
        assert [sep] + Join(rest, sep) == s;
      } else {
        JoinHead(s[0], rest, sep);
        assert forall p | p in rest[1..] :: p in rest;
      }
    }
  }

  lemma JoinCons(a: string, rest: seq<string>, sep: char)
    requires rest != []
    ensures Join([a] + rest, sep) == a + [sep] + Join(rest, sep)
  {
    assert ([a] + rest)[1..] == rest;
  }

  lemma JoinHead(c: char, rest: seq<string>, sep: char)
    requires rest != []
    ensures Join([[c] + rest[0]] + rest[1..], sep) == [c] + Join(rest, sep)
  {
    SplitFirst(rest);
    if |rest| > 1 {
      JoinCons(rest[0], rest[1..], sep);
      JoinCons([c] + rest[0], rest[1..], sep);
    }
  }

  /** Splitting undoes joining when no part holds the separator. */
  lemma {:induction false} SplitJoin(parts: seq<string>, sep: char)
    requires parts != [] && forall p | p in parts :: sep !in p
    ensures Split(Join(parts, sep), sep) == parts
    decreases |parts|
  {
    if |parts| == 1 {
      SplitWhole(parts[0], sep);
    } else {
      SplitJoin(parts[1..], sep);
      SplitAt(parts[0], Join(parts[1..], sep), sep);
      assert parts[0] + [sep] + Join(parts[1..], sep) == parts[0] + ([sep] + Join(parts[1..], sep));
    }
  }

  lemma {:induction false} SplitWhole(s: string, sep: char)
    requires sep !in s
    ensures Split(s, sep) == [s]
  {
    if s != "" {
      SplitWhole(s[1..], sep);
      SplitFirst(s);
    }
  }

  /** Splitting past the first separator. */
  lemma {:induction false} SplitAt(head: string, tail: string, sep: char)
    requires sep !in head
    ensures Split(head + ([sep] + tail), sep) == [head] + Split(tail, sep)
    decreases |head|
  {
    var s := head + ([sep] + tail);
    if head == "" {
      assert s == [sep] + tail;
      assert s[1..] == tail;
    } else {
      SplitAt(head[1..], tail, sep);
      SplitFirst(head);
      assert s[1..] == head[1..] + ([sep] + tail);
    }
  }

  /** Splitting a concatenation glues the last part of one half to the first of the other. */
  lemma {:induction false} SplitConcat(a: string, b: string, sep: char, parts: seq<string>)
    requires parts == Split(a, sep)
    ensures Split(a + b, sep) == parts[..|parts| - 1] + Split(parts[|parts| - 1] + b, sep)
    decreases |a|
  {
    if sep !in a {
      SplitWhole(a, sep);
    } else {
      var n := FirstAt(a, sep);
      var head, tail := a[..n], a[n + 1..];
      var rest := Split(tail, sep);
      SplitConcat(tail, b, sep, rest);
      AroundSeparator(a, n, sep);
      SplitBoth(head, tail, a, b, sep);
      PrependSplit(head, rest, parts, b, sep);
    }
  }

  lemma AroundSeparator(a: string, n: nat, sep: char)
    requires n < |a| && a[n] == sep
    ensures a == a[..n] + ([sep] + a[n + 1..])
  {}

  lemma SplitBoth(head: string, tail: string, a: string, b: string, sep: char)
    requires sep !in head && a == head + ([sep] + tail)
    ensures Split(a, sep) == [head] + Split(tail, sep)
    ensures Split(a + b, sep) == [head] + Split(tail + b, sep)
  {
    Regroup(head, [sep], tail, b);
    SplitAt(head, tail, sep);
    SplitAt(head, tail + b, sep);
  }

  lemma Regroup(a: string, b: string, c: string, d: string)
    ensures (a + (b + c)) + d == a + (b + (c + d))
  {}

  function FirstAt(s: string, c: char): (n: nat)
    requires c in s
    ensures n < |s| && s[n] == c && c !in s[..n]
  {
    if s[0] == c then 0
    else
      SplitFirst(s);
      var n := FirstAt(s[1..], c);
      assert s[..n + 1] == [s[0]] + s[1..][..n];
      n + 1
  }

  lemma PrependSplit(head: string, rest: seq<string>, parts: seq<string>, b: string, sep: char)
    requires rest != [] && parts == [head] + rest
    ensures parts[|parts| - 1] == rest[|rest| - 1]
    ensures parts[..|parts| - 1] + Split(parts[|parts| - 1] + b, sep)
            == [head] + (rest[..|rest| - 1] + Split(rest[|rest| - 1] + b, sep))
  {
    assert parts[..|parts| - 1] == [head] + rest[..|rest| - 1];
  }

  function DigitChar(d: nat): char
    requires d < 10
  {
    '0' + d as char
  }

  predicate IsDigit(c: char) { '0' <= c <= '9' }

  /** `String(n)` for a counter. */
  function Decimal(n: nat): (s: string)
    ensures s != "" && forall k | 0 <= k < |s| :: IsDigit(s[k])
  {
    if n < 10 then [DigitChar(n)] else Decimal(n / 10) + [DigitChar(n % 10)]
  }

  lemma {:induction false} DecimalInjective(m: nat, n: nat)
    requires Decimal(m) == Decimal(n)
    ensures m == n
  {
    var s, t := Decimal(m), Decimal(n);
    assert s[|s| - 1] == DigitChar(m % 10) && t[|t| - 1] == DigitChar(n % 10);
    if m < 10 || n < 10 {
    } else {
      assert s[..|s| - 1] == Decimal(m / 10) && t[..|t| - 1] == Decimal(n / 10);
      DecimalInjective(m / 10, n / 10);
    }
  }
}
