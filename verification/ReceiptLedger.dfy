/**
 The monetization port (gamefactorykit/ports.js): a purchase mints a numbered receipt and applies
 it through the same idempotent step that outside callbacks use.
 */
module ReceiptLedger {
  import opened Sequences
  import opened Text

  datatype Receipt = Receipt(id: string, productId: string)

  /** What a caller may hand to `callback`: null or a receipt without a string id is `Malformed`. */
  datatype Presented = Malformed | Offered(receipt: Receipt)

  datatype Call = Enable | Purchase(product: string) | Callback(presented: Presented) | Restore | Revoke | Cancel | Fail

  datatype Answer = Answer(ok: bool, receipt: Option<Receipt>)

  datatype Ledger = Ledger(
    disabled: bool, entitled: bool, lastReceipt: Option<Receipt>, appliedIds: set<string>, counter: nat)

  const INITIAL: Ledger := Ledger(true, false, None, {}, 0)

  function ReceiptId(product: string, n: nat): string {
    "rcpt_" + product + "_" + Decimal(n)
  }

  predicate Accepts(l: Ledger, p: Presented) {
    p.Offered? && p.receipt.id != "" && p.receipt.id !in l.appliedIds
  }

  function ApplyReceipt(l: Ledger, p: Presented): Ledger {
    if Accepts(l, p) then
      l.(appliedIds := l.appliedIds + {p.receipt.id}, entitled := true, lastReceipt := Some(p.receipt))
    else l
  }

  /** The receipt a purchase mints in state `l`. */
  function Minted(l: Ledger, product: string): Receipt {
    Receipt(ReceiptId(product, l.counter + 1), product)
  }

  function Step(l: Ledger, c: Call): (Ledger, Answer) {
    match c
    case Enable => (l.(disabled := false), Answer(true, None))
    case Purchase(p) =>
      if l.disabled then (l, Answer(false, None))
      else
        var r := Minted(l, p);
        (ApplyReceipt(l.(counter := l.counter + 1), Offered(r)), Answer(true, Some(r)))
    case Callback(p) => (ApplyReceipt(l, p), Answer(Accepts(l, p), None))
    case Restore =>
      if l.lastReceipt.None? then (l, Answer(false, None))
      else (l.(entitled := true), Answer(true, l.lastReceipt))
    case Revoke => (l.(entitled := false), Answer(true, None))
    case Cancel => (l, Answer(false, None))
    case Fail => (l, Answer(false, None))
  }

  function Run(h: seq<Call>): Ledger {
    if h == [] then INITIAL else Step(Run(h[..|h| - 1]), h[|h| - 1]).0
  }

  /** The port object; its fields are the closure variables of `createPorts`. */
  class MonetizationPort {
    var disabled: bool
    var entitled: bool
    var lastReceipt: Option<Receipt>
    var appliedReceiptIds: set<string>
    var receiptCounter: nat

    function State(): Ledger
      reads this
    {
      Ledger(disabled, entitled, lastReceipt, appliedReceiptIds, receiptCounter)
    }

    constructor ()
      ensures State() == INITIAL
    {
      disabled, entitled, lastReceipt, appliedReceiptIds, receiptCounter := true, false, None, {}, 0;
    }

    method ApplyOffered(p: Presented) returns (applied: bool)
      modifies this
      ensures applied == Accepts(old(State()), p) && State() == ApplyReceipt(old(State()), p)
    {
      if p.Malformed? || p.receipt.id == "" {
        return false;
      }
      if p.receipt.id in appliedReceiptIds {
        return false;
      }
      appliedReceiptIds := appliedReceiptIds + {p.receipt.id};
      entitled := true;
      lastReceipt := Some(p.receipt);
      return true;
    }

    method EnablePort()
      modifies this
      ensures State() == Step(old(State()), Enable).0
    {
      disabled := false;
    }

    method BuyProduct(id: string) returns (a: Answer)
      modifies this
      ensures (State(), a) == Step(old(State()), Purchase(id))
    {
      if disabled {
        return Answer(false, None);
      }
      receiptCounter := receiptCounter + 1;
      var receipt := Receipt("rcpt_" + id + "_" + Decimal(receiptCounter), id);
      var _ := ApplyOffered(Offered(receipt));
      return Answer(true, Some(receipt));
    }

    method ReceiveCallback(p: Presented) returns (a: Answer)
      modifies this
      ensures (State(), a) == Step(old(State()), Callback(p))
    {
      var applied := ApplyOffered(p);
      return Answer(applied, None);
    }

    method RestorePurchase() returns (a: Answer)
      modifies this
      ensures (State(), a) == Step(old(State()), Restore)
    {
      if lastReceipt.None? {
        return Answer(false, None);
      }
      entitled := true;
      return Answer(true, lastReceipt);
    }

    method RevokeEntitlement()
      modifies this
      ensures State() == Step(old(State()), Call.Revoke).0
    {
      entitled := false;
    }
  }

  // ---- receipt identity ----

  lemma LastSeparator(a: string, b: string, s: string, t: string)
    requires a + "_" + s == b + "_" + t
    requires '_' !in s && '_' !in t
    ensures s == t
  {
    var whole := a + "_" + s;
    assert whole == b + "_" + t;
    assert whole[|a|] == '_' && whole[|b|] == '_';
    assert forall k | |a| < k < |whole| :: whole[k] == s[k - |a| - 1] != '_';
    assert forall k | |b| < k < |whole| :: whole[k] == t[k - |b| - 1] != '_';
    assert |a| == |b|;
    assert s == whole[|a| + 1..] == t;
  }

  /** Two receipt ids agree only if their counters do, whatever characters the products hold. */
  lemma ReceiptIdDeterminesCounter(p: string, m: nat, q: string, n: nat)
    requires ReceiptId(p, m) == ReceiptId(q, n)
    ensures m == n
  {
    LastSeparator("rcpt_" + p, "rcpt_" + q, Decimal(m), Decimal(n));
    DecimalInjective(m, n);
  }

  // ---- whole runs ----

  predicate Offers(c: Call, id: string) {
    c.Callback? && c.presented.Offered? && c.presented.receipt.id == id
  }

  /** Call `k` of the run really applied a receipt with this id. */
  predicate AppliesAt(h: seq<Call>, k: nat, id: string)
    requires k < |h|
  {
    var l := Run(h[..k]);
    match h[k]
    case Purchase(p) => !l.disabled && Minted(l, p).id == id && id !in l.appliedIds
    case Callback(p) => Accepts(l, p) && p.receipt.id == id
    case _ => false
  }

  function Applications(h: seq<Call>, id: string): nat {
    if h == [] then 0
    else Applications(h[..|h| - 1], id) + if AppliesAt(h, |h| - 1, id) then 1 else 0
  }

  /** In every run an id is applied at most once, and exactly once if it is recorded as applied. */
  lemma {:induction false} EachIdAppliesOnce(h: seq<Call>, id: string)
    ensures Applications(h, id) == if id in Run(h).appliedIds then 1 else 0
    decreases |h|
  {
    if h != [] {
      EachIdAppliesOnce(h[..|h| - 1], id);
    }
  }

  /** A receipt without an id is never applied. */
  lemma {:induction false} NamelessNeverApplied(h: seq<Call>)
    ensures "" !in Run(h).appliedIds
    decreases |h|
  {
    if h != [] { NamelessNeverApplied(h[..|h| - 1]); }
  }

  /** `restore` succeeds exactly when some receipt was ever applied, and returns an applied one. */
  lemma {:induction false} RestoreSucceedsExactly(h: seq<Call>)
    ensures Step(Run(h), Restore).1.ok <==> exists id :: Applications(h, id) > 0
    ensures Step(Run(h), Restore).1.ok ==>
              && Step(Run(h), Restore).0.entitled
              && Step(Run(h), Restore).1.receipt.Some?
              && Applications(h, Step(Run(h), Restore).1.receipt.value.id) == 1
  {
    LastReceiptRecorded(h);
    forall id
      ensures Applications(h, id) > 0 <==> id in Run(h).appliedIds
    {
      EachIdAppliesOnce(h, id);
    }
    var l := Run(h);
    if l.lastReceipt.Some? {
      EachIdAppliesOnce(h, l.lastReceipt.value.id);
    }
  }

  lemma {:induction false} LastReceiptRecorded(h: seq<Call>)
    ensures var l := Run(h);
            if l.lastReceipt.None? then l.appliedIds == {} && !l.entitled else l.lastReceipt.value.id in l.appliedIds
    decreases |h|
  {
    if h != [] {
      LastReceiptRecorded(h[..|h| - 1]);
    }
  }

  /** The receipt that a call presents or mints. */
  function GivenReceipt(l: Ledger, c: Call): Option<Receipt> {
    match c
    case Purchase(p) => if l.disabled then None else Some(Minted(l, p))
    case Callback(p) => if p.Offered? then Some(p.receipt) else None
    case _ => None
  }

  function ReceiptAt(h: seq<Call>, k: nat): Option<Receipt>
    requires k < |h|
  {
    GivenReceipt(Run(h[..k]), h[k])
  }

  /** Call `k` applied the receipt it gave. */
  predicate Applied(h: seq<Call>, k: nat)
    requires k < |h|
  {
    ReceiptAt(h, k).Some? && AppliesAt(h, k, ReceiptAt(h, k).value.id)
  }

  /** Call `k` is the last that applied a receipt. */
  predicate LastApplied(h: seq<Call>, k: nat) {
    k < |h| && Applied(h, k) && forall j | k < j < |h| :: !Applied(h, j)
  }

  lemma StepLast(l: Ledger, c: Call)
    ensures var r := GivenReceipt(l, c);
            Step(l, c).0.lastReceipt ==
            if r.Some? && r.value.id != "" && r.value.id !in l.appliedIds then r else l.lastReceipt
  {}

  lemma AppliedMeans(h: seq<Call>, k: nat)
    requires k < |h|
    ensures var r, l := ReceiptAt(h, k), Run(h[..k]);
            Applied(h, k) <==> r.Some? && r.value.id != "" && r.value.id !in l.appliedIds
  {}

  lemma AppliedBefore(h: seq<Call>, j: nat)
    requires j < |h| - 1
    ensures ReceiptAt(h[..|h| - 1], j) == ReceiptAt(h, j) && (Applied(h[..|h| - 1], j) <==> Applied(h, j))
  {
    assert h[..|h| - 1][..j] == h[..j];
  }

  lemma {:induction false} LastReceiptIsLast(h: seq<Call>, k: nat)
    requires LastApplied(h, k)
    ensures Run(h).lastReceipt == ReceiptAt(h, k)
    decreases |h|
  {
    var n := |h| - 1;
    StepLast(Run(h[..n]), h[n]);
    AppliedMeans(h, n);
    if k < n {
      forall j | 0 <= j < n
        ensures ReceiptAt(h[..n], j) == ReceiptAt(h, j) && (Applied(h[..n], j) <==> Applied(h, j))
      {
        AppliedBefore(h, j);
      }
      LastReceiptIsLast(h[..n], k);
    }
  }

  /** `restore` gives back the whole receipt that was applied last. */
  lemma RestoreReturnsLast(h: seq<Call>, k: nat)
    requires LastApplied(h, k)
    ensures Step(Run(h), Restore).1 == Answer(true, ReceiptAt(h, k)) && Step(Run(h), Restore).0.entitled
  {
    LastReceiptIsLast(h, k);
  }

  /** A recorded id was offered from outside, or minted under a counter already used. */
  lemma {:induction false} AppliedIdsHaveASource(h: seq<Call>, id: string)
    requires id in Run(h).appliedIds
    ensures (exists k | 0 <= k < |h| :: Offers(h[k], id))
            || exists p, n :: 1 <= n <= Run(h).counter && ReceiptId(p, n) == id
    decreases |h|
  {
    var before := h[..|h| - 1];
    var c := h[|h| - 1];
    if id in Run(before).appliedIds {
      AppliedIdsHaveASource(before, id);
      if k :| 0 <= k < |before| && Offers(before[k], id) {
        assert Offers(h[k], id);
      }
    } else if c.Purchase? {
      assert ReceiptId(c.product, Run(h).counter) == id;
    } else {
      assert Offers(h[|h| - 1], id);
    }
  }

  /** An id that outsiders offer ends up applied, by them or earlier. */
  lemma {:induction false} OfferedIdsAreApplied(h: seq<Call>, k: nat)
    requires k < |h| && h[k].Callback? && h[k].presented.Offered? && h[k].presented.receipt.id != ""
    ensures h[k].presented.receipt.id in Run(h).appliedIds
    decreases |h|
  {
    if k < |h| - 1 {
      OfferedIdsAreApplied(h[..|h| - 1], k);
    }
  }

  /**
   When is the receipt of the next purchase fresh? In every run, exactly when no callback has
   already offered the id the counter is about to produce.
   */
  lemma NextReceiptFreshExactly(h: seq<Call>, product: string)
    ensures Minted(Run(h), product).id !in Run(h).appliedIds
            <==> forall k | 0 <= k < |h| :: !Offers(h[k], Minted(Run(h), product).id)
  {
    var id := Minted(Run(h), product).id;
    if id in Run(h).appliedIds {
      AppliedIdsHaveASource(h, id);
      if p, n :| 1 <= n <= Run(h).counter && ReceiptId(p, n) == id {
        ReceiptIdDeterminesCounter(p, n, product, Run(h).counter + 1);
      }
    }
    forall k | 0 <= k < |h| && Offers(h[k], id)
      ensures id in Run(h).appliedIds
    {
      OfferedIdsAreApplied(h, k);
    }
  }

  /** The ids handed out by successful purchases. */
  predicate IssuedBy(h: seq<Call>, id: string) {
    exists k | 0 <= k < |h| :: IssuedAt(h, k, id)
  }

  predicate IssuedAt(h: seq<Call>, k: nat, id: string)
    requires k < |h|
  {
    h[k].Purchase? && !Run(h[..k]).disabled && Minted(Run(h[..k]), h[k].product).id == id
  }

  /** Every receipt a callback presents came from an earlier purchase. */
  predicate Honest(h: seq<Call>) {
    forall k | 0 <= k < |h| && h[k].Callback? && h[k].presented.Offered? ::
      IssuedBy(h[..k], h[k].presented.receipt.id)
  }

  lemma {:induction false} CounterGrows(h: seq<Call>, k: nat)
    requires k <= |h|
    ensures Run(h[..k]).counter <= Run(h).counter
    ensures k < |h| && h[k].Purchase? && !Run(h[..k]).disabled ==> Run(h[..k]).counter < Run(h).counter
    decreases |h|
  {
    if k == |h| {
      assert h[..k] == h;
    } else {
      CounterGrows(h[..|h| - 1], k);
      assert h[..|h| - 1][..k] == h[..k];
    }
  }

  /**
   With honest callbacks every successful purchase creates an id never applied before and leaves
   the port entitled.
   */
  lemma HonestPurchaseIsFresh(h: seq<Call>, product: string)
    requires Honest(h) && !Run(h).disabled
    ensures Minted(Run(h), product).id !in Run(h).appliedIds
    ensures Step(Run(h), Purchase(product)).1.ok && Step(Run(h), Purchase(product)).0.entitled
    ensures Applications(h + [Purchase(product)], Minted(Run(h), product).id) == 1
  {
    var id := Minted(Run(h), product).id;
    forall k | 0 <= k < |h|
      ensures !Offers(h[k], id)
    {
      if Offers(h[k], id) {
        var j :| 0 <= j < k && IssuedAt(h[..k], j, id);
        assert h[..k][..j] == h[..j];
        CounterGrows(h, j);
        ReceiptIdDeterminesCounter(h[j].product, Run(h[..j]).counter + 1, product, Run(h).counter + 1);
      }
    }
    NextReceiptFreshExactly(h, product);
    EachIdAppliesOnce(h, id);
    assert (h + [Purchase(product)])[..|h|] == h;
  }

  /** An ok purchase leaves the port entitled exactly when it already was or the new id is unused. */
  lemma PurchaseEntitlesExactly(h: seq<Call>, product: string)
    requires !Run(h).disabled
    ensures var a := Step(Run(h), Purchase(product)).1;
            && a.ok && a.receipt.Some? && a.receipt.value.productId == product
            && "rcpt_" + product + "_" <= a.receipt.value.id
    ensures Step(Run(h), Purchase(product)).0.entitled
            <==> Run(h).entitled || forall k | 0 <= k < |h| :: !Offers(h[k], Minted(Run(h), product).id)
  {
    NextReceiptFreshExactly(h, product);
  }

  /** A receipt forged with the next id, then a revoke: the purchase reports ok without entitling. */
  lemma ForgedReceiptSpoilsPurchase()
    ensures var forged := Receipt(ReceiptId("gem", 1), "gem");
            var h := [Enable, Callback(Offered(forged)), Call.Revoke];
            Step(Run(h), Purchase("gem")).1.ok && !Step(Run(h), Purchase("gem")).0.entitled
  {
    var forged := Receipt(ReceiptId("gem", 1), "gem");
    var h := [Enable, Callback(Offered(forged)), Call.Revoke];
    assert h[..2][..1][..0] == [];
    assert Run(h[..2][..1]) == INITIAL.(disabled := false);
    assert Run(h[..2]) == Step(Run(h[..2][..1]), h[1]).0;
    assert Run(h) == Step(Run(h[..2]), h[2]).0;
  }
}
