/**
 When the order in which versions arrive does not matter, for every chat and every finite list of
 versions (`mergeIncomingChat` in public/app.js).
 */
module MergeOrder {
  import opened Sequences
  import opened ChatMerge
  import opened ChatLaws

  /** Fold the versions into a local chat, first to last. */
  function FoldAll(base: Version, vs: seq<Version>): (r: Version)
    requires Shaped(base) && EachShaped(vs)
    ensures Shaped(r)
    decreases |vs|
  {
    if vs == [] then base else FoldAll(Merge(base, vs[0]), vs[1..])
  }

  predicate EachShaped(vs: seq<Version>) {
    forall k | 0 <= k < |vs| :: Shaped(vs[k])
  }

  // ---- the condition ----

  predicate Supplies(v: Version, k: Component) { Given(v.Reg(k).fields) }

  /** The version brings something newer than the local component. */
  predicate Offered(base: Version, v: Version, k: Component) {
    Supplies(v, k) && Clock(v, k) > Clock(base, k)
  }

  /** An offer with the newest clock of all; ties give several winners. */
  predicate Winner(base: Version, vs: seq<Version>, w: Version, k: Component) {
    && w in vs && Offered(base, w, k)
    && forall v | v in vs && Offered(base, v, k) :: Clock(v, k) <= Clock(w, k)
  }

  function Laid(base: Version, v: Version, k: Component): seq<Field>
    requires Shaped(base) && Shaped(v)
  {
    Overlay(base.Reg(k).fields, v.Reg(k).fields)
  }

  /** Whichever winner comes first, the local component ends with the same fields. */
  predicate WinnersAgree(base: Version, vs: seq<Version>, k: Component)
    requires Shaped(base) && EachShaped(vs)
  {
    forall v, w | v in vs && w in vs && Winner(base, vs, v, k) && Winner(base, vs, w, k) ::
      Laid(base, v, k) == Laid(base, w, k)
  }

  /** `c` changes no field that `w` leaves out. */
  predicate Spares(base: Version, c: Version, w: Version, k: Component)
    requires Shaped(base) && Shaped(c) && Shaped(w)
  {
    forall i | 0 <= i < |base.Reg(k).fields| ::
      w.Reg(k).fields[i].Some? || c.Reg(k).fields[i].None? || c.Reg(k).fields[i] == base.Reg(k).fields[i]
  }

  /** No older offer changes a field that a winner leaves out. */
  predicate NothingLeaks(base: Version, vs: seq<Version>, k: Component)
    requires Shaped(base) && EachShaped(vs)
  {
    forall c, w | c in vs && w in vs && Offered(base, c, k) && Winner(base, vs, w, k) && Clock(c, k) < Clock(w, k) ::
      Spares(base, c, w, k)
  }

  function Age(v: Version): int { Max(0, v.updatedAt) }

  /** No version that fails to pass `level` in this component is itself younger than `level`. */
  predicate Ceiling(base: Version, vs: seq<Version>, k: Component, level: int) {
    && Age(base) <= level
    && forall v | v in vs && !(Supplies(v, k) && Clock(v, k) > level) :: Age(v) <= level
  }

  /**
   A local component without a clock of its own falls back to `updatedAt`, which other versions
   raise; some level below each winner must hold them all.
   */
  predicate Unblocked(base: Version, vs: seq<Version>, k: Component) {
    base.Reg(k).clock > 0 ||
    forall w | w in vs && Winner(base, vs, w, k) ::
      exists level | 0 <= level < Clock(w, k) :: Ceiling(base, vs, k, level)
  }

  predicate OrderFree(base: Version, vs: seq<Version>, k: Component)
    requires Shaped(base) && EachShaped(vs)
  {
    WinnersAgree(base, vs, k) && NothingLeaks(base, vs, k) && Unblocked(base, vs, k)
  }

  // ---- one merge ----

  lemma MergeReg(b: Version, v: Version, k: Component)
    requires Shaped(b) && Shaped(v)
    ensures var m := Merge(b, v);
            && m.Reg(k) == (if Offered(b, v, k) then Register(Laid(b, v, k), Clock(v, k)) else b.Reg(k))
            && Age(m) == Max(Age(b), Age(v)) && 0 <= Clock(b, k) <= Clock(m, k)
  {
    assert Merge(b, v).Reg(k) == TakeReg(b, v, k);
  }

  /** Nothing newer arrives, so nothing is taken. */
  lemma {:induction false} NoOffers(b: Version, ws: seq<Version>, k: Component)
    requires Shaped(b) && EachShaped(ws) && forall v | v in ws :: !Offered(b, v, k)
    ensures FoldAll(b, ws).Reg(k) == b.Reg(k)
    decreases |ws|
  {
    if ws != [] {
      RestMembers(ws);
      MergeReg(b, ws[0], k);
      NoOffers(Merge(b, ws[0]), ws[1..], k);
    }
  }

  // ---- the condition is enough ----

  predicate Top(v: Version, k: Component, clock: int) { Supplies(v, k) && Clock(v, k) == clock }

  /** Everything still to come leads to the register `t`. */
  predicate LeadsTo(b: Version, ws: seq<Version>, k: Component, t: Register, level: int)
    requires Shaped(b) && EachShaped(ws)
  {
    && Clock(b, k) < t.clock
    && (exists w :: w in ws && Top(w, k, t.clock))
    && (forall v | v in ws && Supplies(v, k) :: Clock(v, k) <= t.clock)
    && (forall w | w in ws && Top(w, k, t.clock) :: Laid(b, w, k) == t.fields)
    && (forall c, w | c in ws && Offered(b, c, k) && Clock(c, k) < t.clock && w in ws && Top(w, k, t.clock) ::
          Spares(b, c, w, k))
    && (b.Reg(k).clock > 0 || (level < t.clock && Ceiling(b, ws, k, level)))
  }

  lemma RestMembers(ws: seq<Version>)
    requires ws != []
    ensures forall v :: v in ws <==> v == ws[0] || v in ws[1..]
  {
    SplitFirst(ws);
  }

  lemma OfferKeepsLead(b: Version, next: Version, ws: seq<Version>, k: Component, t: Register, level: int)
    requires Shaped(b) && Shaped(next) && EachShaped(ws) && ws != [] && LeadsTo(b, ws, k, t, level)
    requires Offered(b, ws[0], k) && Clock(ws[0], k) < t.clock
    requires next.Reg(k) == Register(Laid(b, ws[0], k), Clock(ws[0], k)) && 0 <= Clock(b, k)
    ensures LeadsTo(next, ws[1..], k, t, level)
  {
    var c := ws[0];
    RestMembers(ws);
    forall w | w in ws && Top(w, k, t.clock)
      ensures Laid(next, w, k) == t.fields
    {
      assert Spares(b, c, w, k) && Laid(b, w, k) == t.fields;
      SparedStays(b, next, c, c, w, k);
    }
    forall d, w | d in ws[1..] && Offered(next, d, k) && Clock(d, k) < t.clock && w in ws[1..] && Top(w, k, t.clock)
      ensures Spares(next, d, w, k)
    {
      assert Spares(b, c, w, k) && Spares(b, d, w, k);
      SparedStays(b, next, c, d, w, k);
    }
  }

  /** Taking an offer that spares `w` changes nothing that `w` leaves out. */
  lemma SparedStays(b: Version, next: Version, c: Version, d: Version, w: Version, k: Component)
    requires Shaped(b) && Shaped(next) && Shaped(c) && Shaped(d) && Shaped(w)
    requires next.Reg(k).fields == Laid(b, c, k) && Spares(b, c, w, k) && Spares(b, d, w, k)
    ensures Laid(next, w, k) == Laid(b, w, k) && Spares(next, d, w, k)
  {}

  lemma RefusalKeepsLead(b: Version, next: Version, ws: seq<Version>, k: Component, t: Register, level: int)
    requires Shaped(b) && Shaped(next) && EachShaped(ws) && ws != [] && LeadsTo(b, ws, k, t, level)
    requires !Offered(b, ws[0], k) && next.Reg(k) == b.Reg(k) && Age(next) == Max(Age(b), Age(ws[0]))
    ensures LeadsTo(next, ws[1..], k, t, level)
  {
    RestMembers(ws);
    RefusalHolds(b, next, ws, k, level);
    forall w | w in ws[1..] && Top(w, k, t.clock)
      ensures Laid(next, w, k) == t.fields
    {
      assert Laid(b, w, k) == t.fields;
    }
    forall c, w | c in ws[1..] && Offered(next, c, k) && Clock(c, k) < t.clock && w in ws[1..] && Top(w, k, t.clock)
      ensures Spares(next, c, w, k)
    {
      assert Spares(b, c, w, k);
    }
  }

  lemma RefusalHolds(b: Version, next: Version, ws: seq<Version>, k: Component, level: int)
    requires EachShaped(ws) && ws != [] && !Offered(b, ws[0], k)
    requires next.Reg(k) == b.Reg(k) && Age(next) == Max(Age(b), Age(ws[0]))
    ensures Clock(b, k) <= Clock(next, k)
    ensures b.Reg(k).clock <= 0 && Ceiling(b, ws, k, level) ==>
              Ceiling(next, ws[1..], k, level) && Clock(next, k) <= level
    ensures b.Reg(k).clock > 0 ==> Clock(next, k) == Clock(b, k)
  {
    RestMembers(ws);
  }

  lemma TopArrived(b: Version, next: Version, ws: seq<Version>, k: Component, t: Register, level: int)
    requires Shaped(b) && EachShaped(ws) && ws != [] && LeadsTo(b, ws, k, t, level)
    requires Offered(b, ws[0], k) && Clock(ws[0], k) >= t.clock && 0 <= Clock(b, k)
    requires next.Reg(k) == Register(Laid(b, ws[0], k), Clock(ws[0], k))
    ensures next.Reg(k) == t && forall v | v in ws[1..] :: !Offered(next, v, k)
  {
    RestMembers(ws);
    assert Top(ws[0], k, t.clock);
  }

  lemma {:induction false} LeadArrives(b: Version, ws: seq<Version>, k: Component, t: Register, level: int)
    requires Shaped(b) && EachShaped(ws) && LeadsTo(b, ws, k, t, level)
    ensures FoldAll(b, ws).Reg(k) == t
    decreases |ws|
  {
    var v := ws[0];
    var next := Merge(b, v);
    MergeReg(b, v, k);
    if !Offered(b, v, k) {
      RefusalKeepsLead(b, next, ws, k, t, level);
      LeadArrives(next, ws[1..], k, t, level);
    } else if Clock(v, k) < t.clock {
      OfferKeepsLead(b, next, ws, k, t, level);
      LeadArrives(next, ws[1..], k, t, level);
    } else {
      TopArrived(b, next, ws, k, t, level);
      NoOffers(next, ws[1..], k);
    }
  }

  lemma {:induction false} WinnerExists(base: Version, vs: seq<Version>, v: Version, k: Component) returns (w: Version)
    requires v in vs && Offered(base, v, k)
    ensures Winner(base, vs, w, k)
    decreases |vs|
  {
    RestMembers(vs);
    if u :| u in vs[1..] && Offered(base, u, k) {
      w := WinnerExists(base, vs[1..], u, k);
      if Offered(base, vs[0], k) && Clock(vs[0], k) > Clock(w, k) {
        w := vs[0];
      }
    } else {
      w := vs[0];
    }
  }

  ghost predicate SameMembers(vs: seq<Version>, ws: seq<Version>) {
    forall v :: v in vs <==> v in ws
  }

  lemma WinnerLeads(base: Version, vs: seq<Version>, ws: seq<Version>, k: Component, w: Version) returns (level: int)
    requires Shaped(base) && EachShaped(vs) && EachShaped(ws) && SameMembers(vs, ws)
    requires OrderFree(base, vs, k) && Winner(base, vs, w, k)
    ensures LeadsTo(base, ws, k, Register(Laid(base, w, k), Clock(w, k)), level)
  {
    level := 0;
    if base.Reg(k).clock <= 0 {
      level :| 0 <= level < Clock(w, k) && Ceiling(base, vs, k, level);
    }
    forall u | u in ws && Top(u, k, Clock(w, k))
      ensures Winner(base, vs, u, k) && Laid(base, u, k) == Laid(base, w, k)
    {
      assert Winner(base, vs, u, k);
    }
    assert w in ws && Top(w, k, Clock(w, k));
  }

  /** Under the condition the component ends the same for every order and any repeats. */
  lemma ComponentSettles(base: Version, vs: seq<Version>, ws: seq<Version>, k: Component)
    requires Shaped(base) && EachShaped(vs) && EachShaped(ws) && SameMembers(vs, ws) && OrderFree(base, vs, k)
    ensures FoldAll(base, ws).Reg(k) == FoldAll(base, vs).Reg(k)
  {
    if v :| v in vs && Offered(base, v, k) {
      var w := WinnerExists(base, vs, v, k);
      var t := Register(Laid(base, w, k), Clock(w, k));
      var level := WinnerLeads(base, vs, vs, k, w);
      LeadArrives(base, vs, k, t, level);
      level := WinnerLeads(base, vs, ws, k, w);
      LeadArrives(base, ws, k, t, level);
    } else {
      NoOffers(base, vs, k);
      NoOffers(base, ws, k);
    }
  }

  // ---- and necessary ----

  /** The same versions with one of them moved to the front. */
  function Fronted(vs: seq<Version>, i: nat): (r: seq<Version>)
    requires i < |vs|
    ensures multiset(r) == multiset(vs) && |r| == |vs| && (EachShaped(vs) ==> EachShaped(r))
    ensures r != [] && r[0] == vs[i] && SameMembers(r, vs)
  {
    assert vs == vs[..i] + [vs[i]] + vs[i + 1..];
    var r := [vs[i]] + (vs[..i] + vs[i + 1..]);
    SameBag(r, vs);
    r
  }

  lemma SameBag(r: seq<Version>, vs: seq<Version>)
    requires multiset(r) == multiset(vs)
    ensures SameMembers(r, vs) && (EachShaped(vs) ==> EachShaped(r))
  {
    forall v
      ensures v in r <==> v in vs
    {
      assert v in multiset(r) <==> v in multiset(vs);
    }
    forall j | 0 <= j < |r|
      ensures EachShaped(vs) ==> Shaped(r[j])
    {
      assert r[j] in vs;
    }
  }

  lemma WinnerFirst(base: Version, vs: seq<Version>, w: Version, k: Component) returns (ws: seq<Version>)
    requires Shaped(base) && EachShaped(vs) && Winner(base, vs, w, k)
    ensures EachShaped(ws) && multiset(ws) == multiset(vs)
    ensures FoldAll(base, ws).Reg(k) == Register(Laid(base, w, k), Clock(w, k))
  {
    var i :| 0 <= i < |vs| && vs[i] == w;
    ws := Fronted(vs, i);
    MergeReg(base, w, k);
    RestMembers(ws);
    NoOffers(Merge(base, w), ws[1..], k);
  }

  /** An older offer first, then the winner: what the winner leaves out stays as the older one set it. */
  lemma OlderFirst(base: Version, next: Version, vs: seq<Version>, c: Version, w: Version, k: Component)
    returns (ws: seq<Version>)
    requires Shaped(next) && EachShaped(vs) && c in vs && Offered(base, c, k)
    requires Winner(base, vs, w, k) && Clock(c, k) < Clock(w, k)
    requires next.Reg(k).clock == Clock(c, k) && 0 <= Clock(base, k)
    ensures EachShaped(ws) && multiset(ws) == multiset(vs) && ws != [] && ws[0] == c && Shaped(w)
    ensures EachShaped(ws[1..]) && FoldAll(next, ws[1..]).Reg(k) == Register(Laid(next, w, k), Clock(w, k))
  {
    var i :| 0 <= i < |vs| && vs[i] == c;
    var cs := Fronted(vs, i);
    StillWinner(base, next, vs, cs, c, w, k);
    var rest := WinnerFirst(next, cs[1..], w, k);
    ws := Replaced(cs, rest);
    SameBag(ws, vs);
  }

  lemma FoldFirst(base: Version, ws: seq<Version>)
    requires Shaped(base) && EachShaped(ws) && ws != []
    ensures FoldAll(base, ws) == FoldAll(Merge(base, ws[0]), ws[1..])
  {}

  lemma StillWinner(
    base: Version, next: Version, vs: seq<Version>, cs: seq<Version>, c: Version, w: Version, k: Component)
    requires cs != [] && cs[0] == c && SameMembers(cs, vs) && Offered(base, c, k)
    requires Winner(base, vs, w, k) && Clock(c, k) < Clock(w, k)
    requires next.Reg(k).clock == Clock(c, k) && 0 <= Clock(base, k)
    ensures Winner(next, cs[1..], w, k)
  {
    RestMembers(cs);
  }

  /** If no level holds the versions back, some order raises `updatedAt` past every offer. */
  lemma {:induction false} BlockingOrder(b: Version, vs: seq<Version>, k: Component, top: int)
    returns (ws: seq<Version>)
    requires Shaped(b) && EachShaped(vs) && b.Reg(k).clock <= 0
    requires forall v | v in vs && Supplies(v, k) :: Clock(v, k) <= top
    requires forall level | 0 <= level < top :: !Ceiling(b, vs, k, level)
    ensures EachShaped(ws) && multiset(ws) == multiset(vs)
    ensures FoldAll(b, ws).Reg(k) == b.Reg(k)
    decreases |vs|
  {
    if Age(b) >= top {
      ws := vs;
      NoOffers(b, vs, k);
    } else {
      var order := RaisingFirst(b, vs, k, top);
      var rest := BlockingOrder(Merge(b, order[0]), order[1..], k, top);
      ws := Replaced(order, rest);
      SameBag(ws, vs);
    }
  }

  /** A list with other versions behind its first one. */
  lemma Replaced(order: seq<Version>, rest: seq<Version>) returns (ws: seq<Version>)
    requires order != [] && multiset(rest) == multiset(order[1..])
    ensures ws != [] && ws[0] == order[0] && ws[1..] == rest && multiset(ws) == multiset(order)
  {
    ws := [order[0]] + rest;
    SplitFirst(order);
  }

  /** A refused version that raises the age of the chat, put first. */
  lemma RaisingFirst(b: Version, vs: seq<Version>, k: Component, top: int) returns (order: seq<Version>)
    requires Shaped(b) && EachShaped(vs) && b.Reg(k).clock <= 0 && Age(b) < top
    requires forall level | 0 <= level < top :: !Ceiling(b, vs, k, level)
    ensures order != [] && |order| == |vs| && multiset(order) == multiset(vs) && EachShaped(order)
    ensures var next := Merge(b, order[0]);
            && next.Reg(k) == b.Reg(k) && (forall v | v in order[1..] :: v in vs)
            && forall level | 0 <= level < top :: !Ceiling(next, order[1..], k, level)
  {
    assert !Ceiling(b, vs, k, Age(b));
    var v :| v in vs && !(Supplies(v, k) && Clock(v, k) > Age(b)) && Age(v) > Age(b);
    var i :| 0 <= i < |vs| && vs[i] == v;
    order := Fronted(vs, i);
    RestMembers(order);
    MergeReg(b, v, k);
    RaisedStillUnheld(b, Merge(b, v), vs, k, top, v, order[1..]);
  }

  lemma RaisedStillUnheld(
    b: Version, next: Version, vs: seq<Version>, k: Component, top: int, v: Version, rest: seq<Version>)
    requires Age(v) > Age(b) && Age(next) == Max(Age(b), Age(v))
    requires forall u :: u in vs <==> u == v || u in rest
    requires forall level | 0 <= level < top :: !Ceiling(b, vs, k, level)
    ensures forall level | 0 <= level < top :: !Ceiling(next, rest, k, level)
  {
    forall level | 0 <= level < top
      ensures !Ceiling(next, rest, k, level)
    {
      if Age(v) <= level {
        assert !Ceiling(b, vs, k, level);
      }
    }
  }

  /** Two orders of the same versions that leave the component different. */
  predicate Diverge(base: Version, vs: seq<Version>, k: Component, xs: seq<Version>, ys: seq<Version>)
    requires Shaped(base)
  {
    && EachShaped(xs) && multiset(xs) == multiset(vs) && EachShaped(ys) && multiset(ys) == multiset(vs)
    && FoldAll(base, xs).Reg(k) != FoldAll(base, ys).Reg(k)
  }

  lemma ComponentDiverges(base: Version, vs: seq<Version>, k: Component) returns (xs: seq<Version>, ys: seq<Version>)
    requires Shaped(base) && EachShaped(vs) && !OrderFree(base, vs, k)
    ensures Diverge(base, vs, k, xs, ys)
  {
    if !WinnersAgree(base, vs, k) {
      var v, w :| v in vs && w in vs && Winner(base, vs, v, k) && Winner(base, vs, w, k)
                  && Laid(base, v, k) != Laid(base, w, k);
      xs, ys := TieDiverges(base, vs, v, w, k);
    } else if !NothingLeaks(base, vs, k) {
      var c, w :| c in vs && w in vs && Offered(base, c, k) && Winner(base, vs, w, k) && Clock(c, k) < Clock(w, k)
                  && !Spares(base, c, w, k);
      xs, ys := LeakDiverges(base, vs, c, w, k);
    } else {
      var w :| w in vs && Winner(base, vs, w, k)
               && forall level | 0 <= level < Clock(w, k) :: !Ceiling(base, vs, k, level);
      xs, ys := BlockDiverges(base, vs, w, k);
    }
  }

  lemma TieDiverges(base: Version, vs: seq<Version>, v: Version, w: Version, k: Component)
    returns (xs: seq<Version>, ys: seq<Version>)
    requires Shaped(base) && EachShaped(vs) && Winner(base, vs, v, k) && Winner(base, vs, w, k)
    requires Laid(base, v, k) != Laid(base, w, k)
    ensures Diverge(base, vs, k, xs, ys)
  {
    xs := WinnerFirst(base, vs, v, k);
    ys := WinnerFirst(base, vs, w, k);
  }

  lemma BlockDiverges(base: Version, vs: seq<Version>, w: Version, k: Component)
    returns (xs: seq<Version>, ys: seq<Version>)
    requires Shaped(base) && EachShaped(vs) && Winner(base, vs, w, k) && base.Reg(k).clock <= 0
    requires forall level | 0 <= level < Clock(w, k) :: !Ceiling(base, vs, k, level)
    ensures Diverge(base, vs, k, xs, ys)
  {
    xs := WinnerFirst(base, vs, w, k);
    ys := BlockingOrder(base, vs, k, Clock(w, k));
  }

  lemma LeakDiverges(base: Version, vs: seq<Version>, c: Version, w: Version, k: Component)
    returns (xs: seq<Version>, ys: seq<Version>)
    requires Shaped(base) && EachShaped(vs) && c in vs && Offered(base, c, k)
    requires Winner(base, vs, w, k) && Clock(c, k) < Clock(w, k) && !Spares(base, c, w, k)
    ensures Diverge(base, vs, k, xs, ys)
  {
    MergeReg(base, c, k);
    xs := OlderFirst(base, Merge(base, c), vs, c, w, k);
    FoldFirst(base, xs);
    ys := WinnerFirst(base, vs, w, k);
    LeakShows(base, c, w, k);
  }

  lemma LeakShows(base: Version, c: Version, w: Version, k: Component)
    requires Shaped(base) && Shaped(c) && Shaped(w) && Offered(base, c, k) && !Spares(base, c, w, k)
    ensures Laid(Merge(base, c), w, k) != Laid(base, w, k)
  {
    MergeReg(base, c, k);
    var i :| 0 <= i < |base.Reg(k).fields| && w.Reg(k).fields[i].None? && c.Reg(k).fields[i].Some?
             && c.Reg(k).fields[i] != base.Reg(k).fields[i];
    assert Laid(Merge(base, c), w, k)[i] != Laid(base, w, k)[i];
  }

  // ---- the rest of the chat ----

  /** Id, stamps and trust of the fold: the local id, the maxima, the disjunction. */
  lemma {:induction false} FoldedRest(base: Version, vs: seq<Version>)
    requires Shaped(base) && EachShaped(vs)
    ensures var r := FoldAll(base, vs);
            && r.id == base.id && (r.trusted <==> base.trusted || exists v :: v in vs && v.trusted)
            && base.updatedAt <= r.updatedAt && (forall v | v in vs :: v.updatedAt <= r.updatedAt)
            && (r.updatedAt == base.updatedAt || exists v :: v in vs && v.updatedAt == r.updatedAt)
            && base.activityAt <= r.activityAt && (forall v | v in vs :: v.activityAt <= r.activityAt)
            && (r.activityAt == base.activityAt || exists v :: v in vs && v.activityAt == r.activityAt)
    decreases |vs|
  {
    if vs != [] {
      RestMembers(vs);
      FoldedRest(Merge(base, vs[0]), vs[1..]);
    }
  }

  /** Under the condition, any order and any repeats give the same chat. */
  lemma RepeatsIrrelevant(base: Version, vs: seq<Version>, ws: seq<Version>)
    requires Shaped(base) && EachShaped(vs) && EachShaped(ws) && SameMembers(vs, ws)
    requires forall k: Component :: OrderFree(base, vs, k)
    ensures FoldAll(base, vs) == FoldAll(base, ws)
  {
    var r, s := FoldAll(base, vs), FoldAll(base, ws);
    forall k: Component
      ensures r.Reg(k) == s.Reg(k)
    {
      assert OrderFree(base, vs, k);
      ComponentSettles(base, vs, ws, k);
    }
    FoldedRest(base, vs);
    FoldedRest(base, ws);
    SameRegs(r, s);
  }

  /**
   For every local chat and every list of versions: all orders of merging end in the same chat
   exactly when, in each component, the newest offers agree, leave out nothing that an older offer
   changes, and cannot be shut out by a raised `updatedAt`.
   */
  lemma OrderIrrelevantExactly(base: Version, vs: seq<Version>)
    requires Shaped(base) && EachShaped(vs)
    ensures (forall ws | EachShaped(ws) && multiset(ws) == multiset(vs) :: FoldAll(base, ws) == FoldAll(base, vs))
            <==> forall k: Component :: OrderFree(base, vs, k)
  {
    if forall k: Component :: OrderFree(base, vs, k) {
      forall ws | EachShaped(ws) && multiset(ws) == multiset(vs)
        ensures FoldAll(base, ws) == FoldAll(base, vs)
      {
        SameBag(ws, vs);
        RepeatsIrrelevant(base, vs, ws);
      }
    } else {
      var k: Component :| !OrderFree(base, vs, k);
      var xs, ys := ComponentDiverges(base, vs, k);
      assert FoldAll(base, xs) != FoldAll(base, ys);
    }
  }

  // ---- one input for each way the condition fails ----

  lemma FoldTwo(base: Version, a: Version, b: Version)
    requires Shaped(base) && Shaped(a) && Shaped(b)
    ensures FoldAll(base, [a, b]) == Merge(Merge(base, a), b)
  {
    FoldOne(Merge(base, a), b);
    assert [a, b][1..] == [b];
  }

  lemma FoldOne(base: Version, v: Version)
    requires Shaped(base) && Shaped(v)
    ensures FoldAll(base, [v]) == Merge(base, v)
  {
    assert [v][1..] == [];
  }

  function WithTitle(base: Version, text: string, at: int): (r: Version)
    requires Shaped(base)
    ensures Shaped(r)
  {
    Edited(base, Title, [Some(Text(text))], at)
  }

  /**
   A tie: two devices whose wall clocks lag behind a chat both stamp their edit with its clock plus
   one, and each order of merging keeps another title.
   */
  lemma LaggingEditsDiverge(base: Version, x: string, atX: int, y: string, atY: int)
    requires Shaped(base) && base.title.clock > 0 && x != y
    requires atX <= base.title.clock + 1 && atY <= base.title.clock + 1
    ensures var a, b := WithTitle(base, x, atX), WithTitle(base, y, atY);
            a.title.clock == b.title.clock && FoldAll(base, [a, b]) != FoldAll(base, [b, a])
  {
    WithTitleOffer(base, x, atX);
    WithTitleOffer(base, y, atY);
    TieKeepsFirst(base, WithTitle(base, x, atX), WithTitle(base, y, atY), Title);
    TieKeepsFirst(base, WithTitle(base, y, atY), WithTitle(base, x, atX), Title);
  }

  lemma WithTitleOffer(base: Version, text: string, at: int)
    requires Shaped(base) && base.title.clock > 0 && at <= base.title.clock + 1
    ensures var r := WithTitle(base, text, at);
            && Offered(base, r, Title) && Clock(r, Title) == base.title.clock + 1
            && Laid(base, r, Title) == [Some(Text(text))]
  {
    var r := WithTitle(base, text, at);
    assert r.Reg(Title) == Register([Some(Text(text))], base.title.clock + 1);
    assert r.Reg(Title).fields[0].Some?;
  }

  lemma TieKeepsFirst(base: Version, a: Version, b: Version, k: Component)
    requires Shaped(base) && Shaped(a) && Shaped(b) && Offered(base, a, k) && Clock(a, k) == Clock(b, k)
    ensures FoldAll(base, [a, b]).Reg(k) == Register(Laid(base, a, k), Clock(a, k))
  {
    FoldTwo(base, a, b);
    MergeReg(base, a, k);
    MergeReg(Merge(base, a), b, k);
  }

  /** A chat whose components all carry the same clock. */
  function Uniform(clock: int, updatedAt: int): (r: Version)
    ensures Shaped(r)
  {
    Version("c", Register([Some(Messages([])), Some(Text("fast"))], clock), Register([Some(Text("t"))], clock),
            Register([Some(Text("m"))], clock), Register([Some(Text(""))], clock),
            Register([Some(Text("ember")), Some(Flag(false))], clock), updatedAt, updatedAt, false)
  }

  /** An omitted field: the newest transcript has no `lastMode`, an older one changes it. */
  lemma AbsentModeDiverges()
    ensures var base := Uniform(1, 1);
            var older := Uniform(1, 2).(transcript := Register([Some(Messages([])), Some(Text("mentor"))], 2));
            var newer := Uniform(1, 3).(transcript := Register([Some(Messages([])), None], 3));
            FoldAll(base, [older, newer]) != FoldAll(base, [newer, older])
  {
    var base := Uniform(1, 1);
    var older := Uniform(1, 2).(transcript := Register([Some(Messages([])), Some(Text("mentor"))], 2));
    var newer := Uniform(1, 3).(transcript := Register([Some(Messages([])), None], 3));
    FoldTwo(base, older, newer);
    FoldTwo(base, newer, older);
    assert newer.transcript.fields[0].Some? && older.transcript.fields[0].Some?;
    assert FoldAll(base, [older, newer]).transcript.fields[1] == Some(Text("mentor"));
    assert FoldAll(base, [newer, older]).transcript.fields[1] == Some(Text("fast"));
  }

  /** A missing clock: a version with an old title but a late `updatedAt` shuts out a newer title. */
  lemma MissingClockDiverges()
    ensures var base := Uniform(0, 5);
            var late := Uniform(3, 10);
            var titled := Uniform(3, 7).(title := Register([Some(Text("new"))], 7));
            FoldAll(base, [late, titled]) != FoldAll(base, [titled, late])
  {
    var base, late := Uniform(0, 5), Uniform(3, 10);
    var titled := Uniform(3, 7).(title := Register([Some(Text("new"))], 7));
    FoldTwo(base, late, titled);
    FoldTwo(base, titled, late);
    assert titled.title.fields[0].Some?;
    assert FoldAll(base, [late, titled]).title.fields[0] == Some(Text("t"));
    assert FoldAll(base, [titled, late]).title.fields[0] == Some(Text("new"));
  }
}
