/**
 Which rows the blueprint shows (`moveParentOf`, `moveChildren`, `moveLeaves`, the row order of
 `blueprint`, and the percent of `announceProgress` in public/dominion-lenses.js).
 */
module MoveTree {
  import opened Sequences
  import opened Text
  import opened BuildDigest

  /** The match of `^tg-(\d+)-`: "tg-" and the digits, or "" when the id has another form. */
  function ParentOf(id: string): (p: string)
    ensures p != "" ==> p < id
  {
    if "tg-" <= id then
      var n := RunLength(IsDigit, id[3..]);
      if n > 0 && 3 + n < |id| && id[3 + n] == '-' then id[..3 + n] else ""
    else ""
  }

  /** Nesting depth is at most one: a parent id never has a parent itself. */
  lemma ParentsHaveNoParent(id: string)
    ensures ParentOf(ParentOf(id)) == ""
  {
    var p := ParentOf(id);
    if p != "" {
      var n := RunLength(IsDigit, id[3..]);
      assert p[3..] == id[3..][..n];
      RunLengthUnique(IsDigit, p[3..], n);
    }
  }

  predicate HasId(moves: seq<Move>, id: string) {
    exists m :: m in moves && m.id == id
  }

  predicate IsChild(moves: seq<Move>, m: Move) {
    ParentOf(m.id) != "" && HasId(moves, ParentOf(m.id))
  }

  function ChildTest(moves: seq<Move>, id: string): Move -> bool {
    (m: Move) => IsChild(moves, m) && ParentOf(m.id) == id
  }

  function ChildrenOf(moves: seq<Move>, id: string): seq<Move> {
    Filter(ChildTest(moves, id), moves)
  }

  function LeafTest(moves: seq<Move>): Move -> bool {
    (m: Move) => ChildrenOf(moves, m.id) == []
  }

  function DoneTest(): Move -> bool {
    (m: Move) => m.state == "done"
  }

  /** The moves with no present child. */
  function Leaves(moves: seq<Move>): seq<Move> {
    Filter(LeafTest(moves), moves)
  }

  predicate DistinctIds(moves: seq<Move>) {
    forall j, k | 0 <= j < k < |moves| :: moves[j].id != moves[k].id
  }

  /** The child lists keyed by parent id, in move order; only parents that have children appear. */
  method MoveChildren(moves: seq<Move>) returns (children: map<string, seq<Move>>)
    ensures forall id :: id in children <==> ChildrenOf(moves, id) != []
    ensures forall id :: id in children ==> children[id] == ChildrenOf(moves, id)
  {
    children := map[];
    for i := 0 to |moves|
      invariant forall id :: var kids := Filter(ChildTest(moves, id), moves[..i]);
                  (id in children <==> kids != []) && (id in children ==> children[id] == kids)
    {
      var m := moves[i];
      forall id
        ensures Filter(ChildTest(moves, id), moves[..i + 1])
                == Filter(ChildTest(moves, id), moves[..i]) + if ChildTest(moves, id)(m) then [m] else []
      {
        PrefixSnoc(moves, i);
        FilterConcat(ChildTest(moves, id), moves[..i], [m]);
      }
      var pid := ParentOf(m.id);
      var present := HasIdLoop(moves, pid);
      if pid != "" && present {
        if pid !in children {
          children := children[pid := []];
        }
        children := children[pid := children[pid] + [m]];
      }
    }
    assert moves[..|moves|] == moves;
  }

  method HasIdLoop(moves: seq<Move>, id: string) returns (found: bool)
    ensures found == HasId(moves, id)
  {
    for i := 0 to |moves|
      invariant forall k | 0 <= k < i :: moves[k].id != id
    {
      if moves[i].id == id {
        return true;
      }
    }
    return false;
  }

  /** The leaves: a first pass collects the parents, a second keeps the moves outside that set. */
  method MoveLeaves(moves: seq<Move>) returns (leaves: seq<Move>)
    ensures leaves == Leaves(moves)
  {
    var parents: set<string> := {};
    for i := 0 to |moves|
      invariant forall id :: id in parents <==> exists k :: 0 <= k < i && ChildTest(moves, id)(moves[k])
    {
      var pid := ParentOf(moves[i].id);
      var present := HasIdLoop(moves, pid);
      if pid != "" && present {
        parents := parents + {pid};
      }
    }
    forall id
      ensures id in parents <==> ChildrenOf(moves, id) != []
    {
      HasChildrenExactly(moves, id);
    }
    leaves := KeepOutside(moves, parents, LeafTest(moves));
  }

  method KeepOutside(moves: seq<Move>, parents: set<string>, ghost leaf: Move -> bool) returns (leaves: seq<Move>)
    requires forall m :: leaf(m) <==> m.id !in parents
    ensures leaves == Filter(leaf, moves)
  {
    leaves := [];
    for i := 0 to |moves|
      invariant leaves == Filter(leaf, moves[..i])
    {
      PrefixSnoc(moves, i);
      FilterConcat(leaf, moves[..i], [moves[i]]);
      if moves[i].id !in parents {
        leaves := leaves + [moves[i]];
      }
    }
    assert moves[..|moves|] == moves;
  }

  lemma HasChildrenExactly(moves: seq<Move>, id: string)
    ensures ChildrenOf(moves, id) != []
            <==> exists k :: 0 <= k < |moves| && ChildTest(moves, id)(moves[k])
  {
    var p := ChildTest(moves, id);
    if ChildrenOf(moves, id) != [] {
      FilterMembers(p, moves, ChildrenOf(moves, id)[0]);
    }
    forall k | 0 <= k < |moves| && p(moves[k])
      ensures ChildrenOf(moves, id) != []
    {
      FilterMembers(p, moves, moves[k]);
    }
  }

  function TopTest(moves: seq<Move>): Move -> bool {
    (m: Move) => !IsChild(moves, m)
  }

  function TopLevel(moves: seq<Move>): seq<Move> {
    Filter(TopTest(moves), moves)
  }

  /** The rows on screen: every top-level move followed by its children. */
  function Rows(moves: seq<Move>, top: seq<Move>): seq<Move> {
    if top == [] then [] else [top[0]] + ChildrenOf(moves, top[0].id) + Rows(moves, top[1..])
  }

  lemma {:induction false} FilterMultiset(p: Move -> bool, q: Move -> bool, r: Move -> bool, xs: seq<Move>)
    requires forall x | x in xs :: (p(x) <==> q(x) || r(x)) && !(q(x) && r(x))
    ensures multiset(Filter(p, xs)) == multiset(Filter(q, xs)) + multiset(Filter(r, xs))
    decreases |xs|
  {
    if xs != [] {
      SplitFirst(xs);
      FilterMultiset(p, q, r, xs[1..]);
    }
  }

  predicate UnderOneOf(moves: seq<Move>, top: seq<Move>, m: Move) {
    IsChild(moves, m) && HasId(top, ParentOf(m.id))
  }

  function UnderTest(moves: seq<Move>, top: seq<Move>): Move -> bool {
    (m: Move) => UnderOneOf(moves, top, m)
  }

  lemma {:induction false} RowsMultiset(moves: seq<Move>, top: seq<Move>)
    requires DistinctIds(top)
    ensures multiset(Rows(moves, top)) == multiset(top) + multiset(Filter(UnderTest(moves, top), moves))
    decreases |top|
  {
    if top == [] {
      FilterDropsAll(UnderTest(moves, top), moves);
    } else {
      RowsMultiset(moves, top[1..]);
      SplitFirst(top);
      FilterMultiset(UnderTest(moves, top), ChildTest(moves, top[0].id), UnderTest(moves, top[1..]), moves);
    }
  }

  lemma {:induction false} FilterKeepsDistinctIds(p: Move -> bool, moves: seq<Move>)
    requires DistinctIds(moves)
    ensures DistinctIds(Filter(p, moves))
    decreases |moves|
  {
    if moves != [] {
      FilterKeepsDistinctIds(p, moves[1..]);
      var rest := Filter(p, moves[1..]);
      forall k | 0 <= k < |rest|
        ensures rest[k].id != moves[0].id
      {
        FilterMembers(p, moves[1..], rest[k]);
      }
    }
  }

  /** Every move is shown exactly once, as a top-level row or under its parent. */
  lemma EveryMoveShownOnce(moves: seq<Move>)
    requires DistinctIds(moves)
    ensures multiset(Rows(moves, TopLevel(moves))) == multiset(moves)
  {
    var top := TopLevel(moves);
    var isTop := TopTest(moves);
    FilterKeepsDistinctIds(isTop, moves);
    RowsMultiset(moves, top);
    forall m | m in moves
      ensures IsChild(moves, m) <==> UnderOneOf(moves, top, m)
    {
      if IsChild(moves, m) {
        var parent :| parent in moves && parent.id == ParentOf(m.id);
        ParentsHaveNoParent(m.id);
        FilterMembers(isTop, moves, parent);
      }
    }
    var all := (_: Move) => true;
    FilterMultiset(all, isTop, UnderTest(moves, top), moves);
    FilterKeepsAll(all, moves);
  }

  /** The machine's `(done / total) * 100`. */
  type Machine = (nat, nat) -> real

  /** Its rounding errors stay below the distance of any other quotient to a half. */
  predicate Accurate(m: Machine, total: nat) {
    forall done | 0 <= done <= total ::
      -1.0 < (2 * total) as real * m(done, total) - (200 * done) as real < 1.0
  }

  /** `r` is a whole number nearest to 100 done / total; at a half, either neighbour is. */
  predicate NearestPercent(r: int, done: nat, total: nat) {
    200 * done - total <= (2 * total) * r <= 200 * done + total
  }

  /** `min(99, Math.round((done / total) * 100))`, and 0 before a plan exists. */
  function Percent(m: Machine, done: nat, total: nat): (p: int)
    requires done <= total && Accurate(m, total)
    ensures 0 <= p <= 99 && (total == 0 ==> p == 0)
    ensures total > 0 ==> exists r :: NearestPercent(r, done, total) && p == if r < 99 then r else 99
  {
    if total == 0 then 0
    else
      var rounded := (m(done, total) + 0.5).Floor;
      RoundsToNearest(m(done, total), done, total);
      assert NearestPercent(rounded, done, total);
      if rounded < 99 then rounded else 99
  }

  lemma RoundsToNearest(x: real, done: nat, total: nat)
    requires total > 0 && -1.0 < (2 * total) as real * x - (200 * done) as real < 1.0
    ensures NearestPercent((x + 0.5).Floor, done, total) && 0 <= (x + 0.5).Floor
  {
    var r := (x + 0.5).Floor;
    NearFloor((2 * total) as real, x, r, 2 * total, 200 * done, total);
    NearestIsWhole(r, done, total);
  }

  lemma NearFloor(t: real, x: real, r: int, m: nat, q: int, total: nat)
    requires m == 2 * total && t == m as real && total > 0 && -1.0 < t * x - q as real < 1.0
    requires r as real <= x + 0.5 < r as real + 1.0
    ensures q - total <= m * r <= q + total
  {
    ProductAsReal(m, r);
    ScaledBounds(t, total as real, x, r as real, t * x, (m * r) as real);
    WholeBounds(m * r, t * x, q, total);
  }

  lemma NearestIsWhole(r: int, done: nat, total: nat)
    requires total > 0 && NearestPercent(r, done, total)
    ensures r >= 0
  {
    if r < 0 { Grows(2 * total, r, -1); }
  }

  lemma WholeBounds(n: int, y: real, q: int, total: nat)
    requires n as real <= y + total as real && y - total as real < n as real && -1.0 < y - q as real < 1.0
    ensures q - total <= n <= q + total
  {
    assert n as real < (q + total + 1) as real && (q - total - 1) as real < n as real;
  }

  lemma {:induction false} ProductAsReal(m: nat, r: int)
    ensures (m * r) as real == m as real * r as real
    decreases m
  {
    if m > 0 {
      ProductAsReal(m - 1, r);
      assert m * r == (m - 1) * r + r;
      assert m as real == (m - 1) as real + 1.0;
      assert ((m - 1) as real + 1.0) * r as real == (m - 1) as real * r as real + r as real;
    }
  }

  lemma ScaledBounds(t: real, h: real, x: real, r: real, y: real, z: real)
    requires t > 0.0 && t == 2.0 * h && r <= x + 0.5 < r + 1.0 && y == t * x && z == t * r
    ensures z <= y + h && y - h < z
  {
    var up, down := x + 0.5 - r, r + 0.5 - x;
    Product(t, up);
    Product(t, down);
    Distribute(t, x, 0.5, r);
    Distribute(t, r, 0.5, x);
    assert t * up == y + h - z;
    assert t * down == z + h - y;
  }

  lemma Product(a: real, b: real)
    requires a > 0.0 && b >= 0.0
    ensures a * b >= 0.0 && (b > 0.0 ==> a * b > 0.0)
  {}

  lemma Distribute(t: real, u: real, v: real, w: real)
    ensures t * (u + v - w) == t * u + t * v - t * w
  {}

  /** Two different whole numbers are nearest only at a half, and then they are neighbours. */
  lemma NearestIsUnique(r: int, s: int, done: nat, total: nat)
    requires total > 0 && NearestPercent(r, done, total) && NearestPercent(s, done, total) && r < s
    ensures s == r + 1 && 200 * done == total * (2 * r + 1)
  {
    var m := 2 * total;
    OneMore(m, r);
    OddHalf(total, r);
    if s > r + 1 {
      Spread(m, r + 1, s);
    }
  }

  lemma Spread(m: nat, r: int, s: int)
    requires r < s
    ensures m * r + m <= m * s
  {
    Grows(m, r + 1, s);
    OneMore(m, r);
  }

  lemma OneMore(m: nat, r: int)
    ensures m * (r + 1) == m * r + m
  {}

  lemma OddHalf(total: nat, r: int)
    ensures total * (2 * r + 1) == (2 * total) * r + total
  {}

  lemma Grows(m: nat, a: int, b: int)
    requires a <= b
    ensures m * a <= m * b
  {}

  /** The announced progress of any journal: the capped percent of the leaves that are done. */
  method AnnounceProgress(m: Machine, events: seq<Event>) returns (percent: int, done: nat, total: nat)
    requires Accurate(m, |Leaves(DigestOf(events).moves)|)
    ensures done <= total && Accurate(m, total) && percent == Percent(m, done, total) && 0 <= percent <= 99
    ensures var moves := DigestOf(events).moves;
            && total == |Leaves(moves)| && done == |Filter(DoneTest(), Leaves(moves))|
  {
    var d := RunDigest(events);
    var leaves := MoveLeaves(d.moves);
    total := |leaves|;
    done := 0;
    for i := 0 to total
      invariant done == |Filter(DoneTest(), leaves[..i])| && done <= i
    {
      PrefixSnoc(leaves, i);
      FilterConcat(DoneTest(), leaves[..i], [leaves[i]]);
      if leaves[i].state == "done" {
        done := done + 1;
      }
    }
    assert leaves[..total] == leaves;
    percent := Percent(m, done, total);
  }

  /** Rows of any digest: the journal's ids are distinct, so each move is shown once. */
  lemma DigestRowsShownOnce(events: seq<Event>)
    ensures var moves := DigestOf(events).moves;
            multiset(Rows(moves, TopLevel(moves))) == multiset(moves)
  {
    MovesKeepFirstAppearanceOrder(events);
    FirstOccurrencesMeaning(Mentions(events));
    var moves := DigestOf(events).moves;
    forall j, k | 0 <= j < k < |moves|
      ensures moves[j].id != moves[k].id
    {
      assert Ids(moves)[j] != Ids(moves)[k];
    }
    EveryMoveShownOnce(moves);
  }

  /** Exactly the ids "tg-", digits, "-" and anything have a parent, and it is "tg-" and the digits. */
  lemma ParentOfExactly(id: string, p: string)
    requires p != ""
    ensures ParentOf(id) == p <==> exists digits, rest :: Descends(id, p, digits, rest)
  {
    if ParentOf(id) == p { ParentDescends(id); }
    if digits, rest :| Descends(id, p, digits, rest) { DescendsFrom(id, p, digits, rest); }
  }

  lemma ParentDescends(id: string)
    requires ParentOf(id) != ""
    ensures exists digits, rest :: Descends(id, ParentOf(id), digits, rest)
  {
    var n := RunLength(IsDigit, id[3..]);
    var digits, rest := id[3..][..n], id[4 + n..];
    assert id[..3 + n] == "tg-" + digits;
    assert id == id[..3 + n] + [id[3 + n]] + rest;
    assert Descends(id, ParentOf(id), digits, rest);
  }

  lemma DescendsFrom(id: string, p: string, digits: string, rest: string)
    requires Descends(id, p, digits, rest)
    ensures ParentOf(id) == p
  {
    var n := |digits|;
    assert id[..3 + n] == p && p[..3] == "tg-" && p[3..] == digits;
    assert id[..3] == p[..3];
    var tail := id[3..];
    assert tail[..n] == digits && tail[n] == id[3 + n] == '-';
    assert forall k | 0 <= k < n :: tail[k] == tail[..n][k];
    RunLengthUnique(IsDigit, tail, n);
  }

  predicate Descends(id: string, p: string, digits: string, rest: string) {
    && digits != "" && (forall k | 0 <= k < |digits| :: IsDigit(digits[k]))
    && p == "tg-" + digits && id == p + "-" + rest
  }

  /** What counts as done: the moves in state "done" that are no other move's parent. */
  lemma DoneLeavesExactly(moves: seq<Move>, m: Move)
    ensures m in Filter(DoneTest(), Leaves(moves))
            <==> m in moves && m.state == "done"
                 && forall c | c in moves :: ParentOf(c.id) != m.id || ParentOf(c.id) == ""
  {
    FilterMembers(DoneTest(), Leaves(moves), m);
    FilterMembers(LeafTest(moves), moves, m);
    HasChildrenExactly(moves, m.id);
    if m in moves {
      if k :| 0 <= k < |moves| && ChildTest(moves, m.id)(moves[k]) { assert moves[k] in moves; }
      if c :| c in moves && ParentOf(c.id) == m.id && ParentOf(c.id) != "" {
        assert IsChild(moves, c);
        var k :| 0 <= k < |moves| && moves[k] == c;
        assert ChildTest(moves, m.id)(moves[k]);
      }
    }
  }

  /** Between a child row and its parent's row before it stand only children of that parent. */
  predicate UnderParent(rows: seq<Move>, j: nat, k: nat) {
    && j < k < |rows| && rows[j].id == ParentOf(rows[k].id)
    && forall i | j < i <= k :: ParentOf(rows[i].id) == ParentOf(rows[k].id)
  }

  ghost predicate HasParentAbove(rows: seq<Move>, k: nat) { exists j: nat :: UnderParent(rows, j, k) }

  /** Every row is one of the top rows, or stands under its parent. */
  lemma {:induction false} ChildrenFollowParents(moves: seq<Move>, top: seq<Move>, k: nat)
    requires k < |Rows(moves, top)|
    ensures Rows(moves, top)[k] in top || HasParentAbove(Rows(moves, top), k)
    decreases |top|
  {
    var head, rest := [top[0]] + ChildrenOf(moves, top[0].id), Rows(moves, top[1..]);
    var rows := head + rest;
    if k >= |head| {
      ChildrenFollowParents(moves, top[1..], k - |head|);
      LaterRow(head, rest, rows, k);
    } else if k > 0 {
      KidRow(moves, top[0], rest, rows, k);
    }
  }

  lemma LaterRow(head: seq<Move>, rest: seq<Move>, rows: seq<Move>, k: nat)
    requires rows == head + rest && |head| <= k < |rows|
    ensures rows[k] == rest[k - |head|] && (HasParentAbove(rest, k - |head|) ==> HasParentAbove(rows, k))
  {
    assert forall i | |head| <= i < |rows| :: rows[i] == rest[i - |head|];
    var m := k - |head|;
    if j: nat :| UnderParent(rest, j, m) {
      assert UnderParent(rows, j + |head|, k);
    }
  }

  lemma KidRow(moves: seq<Move>, t: Move, rest: seq<Move>, rows: seq<Move>, k: nat)
    requires rows == [t] + ChildrenOf(moves, t.id) + rest && 0 < k <= |ChildrenOf(moves, t.id)|
    ensures HasParentAbove(rows, k)
  {
    var kids := ChildrenOf(moves, t.id);
    forall i | 0 < i <= k
      ensures ParentOf(rows[i].id) == t.id
    {
      assert rows[i] == kids[i - 1];
      FilterMembers(ChildTest(moves, t.id), moves, kids[i - 1]);
    }
    assert UnderParent(rows, 0, k);
  }
}
