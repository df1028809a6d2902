/** Sequence vocabulary shared by the models: subsequences, filters and flattening. */
module Sequences {

  datatype Option<+T> = None | Some(value: T)

  /** `xs` can be obtained from `ys` by deleting elements, keeping the order. */
  predicate Subsequence<T(==)>(xs: seq<T>, ys: seq<T>)
    decreases |ys|
  {
    xs == [] ||
    (ys != [] &&
     ((xs[0] == ys[0] && Subsequence(xs[1..], ys[1..])) || Subsequence(xs, ys[1..])))
  }

  lemma SplitLast<T>(xs: seq<T>)
    requires xs != []
    ensures xs == xs[..|xs| - 1] + [xs[|xs| - 1]]
  {}

  lemma PrefixSnoc<T>(xs: seq<T>, i: nat)
    requires i < |xs|
    ensures xs[..i + 1] == xs[..i] + [xs[i]]
  {}

  lemma SplitFirst<T>(xs: seq<T>)
    requires xs != []
    ensures xs == [xs[0]] + xs[1..]
  {}

  lemma {:induction false} SubsequenceRefl<T>(xs: seq<T>)
    ensures Subsequence(xs, xs)
    decreases |xs|
  {
    if xs != [] {
      SubsequenceRefl(xs[1..]);
    }
  }

  /** Subsequences compose side by side. */
  lemma {:induction false} SubsequenceConcat<T>(a: seq<T>, b: seq<T>, c: seq<T>, d: seq<T>)
    requires Subsequence(a, b) && Subsequence(c, d)
    ensures Subsequence(a + c, b + d)
    decreases |b|
  {
    if b == [] {
      assert a + c == c && b + d == d;
    } else {
      assert (b + d)[1..] == b[1..] + d;
      if a == [] {
        SubsequenceConcat(a, b[1..], c, d);
      } else {
        assert (a + c)[1..] == a[1..] + c;
        if a[0] == b[0] && Subsequence(a[1..], b[1..]) {
          SubsequenceConcat(a[1..], b[1..], c, d);
        } else {
          SubsequenceConcat(a, b[1..], c, d);
        }
      }
    }
  }

  lemma {:induction false} SubsequenceTrans<T>(a: seq<T>, b: seq<T>, c: seq<T>)
    requires Subsequence(a, b) && Subsequence(b, c)
    ensures Subsequence(a, c)
    decreases |b| + |c|
  {
    if a != [] {
      if b[0] == c[0] && Subsequence(b[1..], c[1..]) {
        if a[0] == b[0] && Subsequence(a[1..], b[1..]) {
          SubsequenceTrans(a[1..], b[1..], c[1..]);
        } else {
          SubsequenceTrans(a, b[1..], c[1..]);
        }
      } else {
        SubsequenceTrans(a, b, c[1..]);
      }
    }
  }

  /** A slice is a subsequence. */
  lemma SliceSubsequence<T>(xs: seq<T>, lo: nat, hi: nat)
    requires lo <= hi <= |xs|
    ensures Subsequence(xs[lo..hi], xs)
  {
    SubsequenceRefl(xs[lo..hi]);
    SubsequenceConcat(xs[lo..hi], xs[lo..hi], [], xs[hi..]);
    SubsequenceConcat([], xs[..lo], xs[lo..hi] + [], xs[lo..hi] + xs[hi..]);
    assert xs == xs[..lo] + (xs[lo..hi] + xs[hi..]);
    assert [] + (xs[lo..hi] + []) == xs[lo..hi];
  }

  function Filter<T>(p: T -> bool, xs: seq<T>): (r: seq<T>)
    ensures |r| <= |xs|
  {
    if xs == [] then [] else (if p(xs[0]) then [xs[0]] else []) + Filter(p, xs[1..])
  }

  lemma {:induction false} FilterConcat<T>(p: T -> bool, xs: seq<T>, ys: seq<T>)
    ensures Filter(p, xs + ys) == Filter(p, xs) + Filter(p, ys)
    decreases |xs|
  {
    if xs == [] {
      assert xs + ys == ys;
    } else {
      var head := if p(xs[0]) then [xs[0]] else [];
      FilterConcat(p, xs[1..], ys);
      assert xs + ys == [xs[0]] + (xs[1..] + ys);
      assert head + (Filter(p, xs[1..]) + Filter(p, ys)) == (head + Filter(p, xs[1..])) + Filter(p, ys);
    }
  }

  lemma {:induction false} FilterMembers<T>(p: T -> bool, xs: seq<T>, x: T)
    ensures x in Filter(p, xs) <==> x in xs && p(x)
    decreases |xs|
  {
    if xs != [] {
      SplitFirst(xs);
      FilterMembers(p, xs[1..], x);
    }
  }

  lemma {:induction false} FilterKeepsAll<T>(p: T -> bool, xs: seq<T>)
    requires forall x | x in xs :: p(x)
    ensures Filter(p, xs) == xs
    decreases |xs|
  {
    if xs != [] {
      SplitFirst(xs);
      FilterKeepsAll(p, xs[1..]);
    }
  }

  lemma {:induction false} FilterDropsAll<T>(p: T -> bool, xs: seq<T>)
    requires forall x | x in xs :: !p(x)
    ensures Filter(p, xs) == []
    decreases |xs|
  {
    if xs != [] {
      SplitFirst(xs);
      FilterDropsAll(p, xs[1..]);
    }
  }

  lemma {:induction false} FilterSubsequence<T>(p: T -> bool, xs: seq<T>)
    ensures Subsequence(Filter(p, xs), xs)
    decreases |xs|
  {
    if xs != [] {
      FilterSubsequence(p, xs[1..]);
      var tail := Filter(p, xs[1..]);
      if p(xs[0]) {
        assert Filter(p, xs)[1..] == tail;
      } else {
        assert Filter(p, xs) == tail;
      }
    }
  }

  function Flatten<T>(xss: seq<seq<T>>): seq<T> {
    if xss == [] then [] else xss[0] + Flatten(xss[1..])
  }

  lemma {:induction false} FlattenConcat<T>(a: seq<seq<T>>, b: seq<seq<T>>)
    ensures Flatten(a + b) == Flatten(a) + Flatten(b)
    decreases |a|
  {
    if a == [] {
      assert a + b == b;
    } else {
      assert (a + b)[1..] == a[1..] + b;
      FlattenConcat(a[1..], b);
    }
  }

  lemma FlattenSnoc<T>(a: seq<seq<T>>, x: seq<T>)
    ensures Flatten(a + [x]) == Flatten(a) + x
  {
    FlattenConcat(a, [x]);
    assert Flatten([x]) == x + Flatten([]) == x;
  }

  function FlatMap<S, T>(f: S -> seq<T>, xs: seq<S>): seq<T> {
    if xs == [] then [] else FlatMap(f, xs[..|xs| - 1]) + f(xs[|xs| - 1])
  }

  lemma {:induction false} FlatMapConcat<S, T>(f: S -> seq<T>, xs: seq<S>, ys: seq<S>)
    ensures FlatMap(f, xs + ys) == FlatMap(f, xs) + FlatMap(f, ys)
    decreases |ys|
  {
    if ys == [] {
      assert xs + ys == xs;
    } else {
      var init, last := ys[..|ys| - 1], f(ys[|ys| - 1]);
      FlatMapConcat(f, xs, init);
      assert (xs + ys)[..|xs + ys| - 1] == xs + init;
      assert FlatMap(f, xs) + FlatMap(f, init) + last == FlatMap(f, xs) + (FlatMap(f, init) + last);
    }
  }
}
