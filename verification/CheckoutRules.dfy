// What starting, submitting, cancelling, rejecting, flagging and holding a checkout does, said outright: when it is
// accepted, why it is refused, and everything it changes.
module CheckoutRules {
  import opened Wrappers
  import opened Basics
  import opened Records
  import opened Sums
  import opened Books
  import opened Enforcement
  import opened Ledger
  import opened Payments
  import opened Approving
  import opened Billing
  import opened PayAll

  // ---- starting a checkout ----

  /** Invoice i exists and the payer may pay for its admin. */
  predicate PayableBy(db: Db, c: Checkout, i: int) {
    0 <= i < |db.invoices| && db.invoices[i].admin in c.mayPay
  }

  /** Payment p is an unfinished checkout of one of the invoices: the new checkout replaces it. */
  predicate Replaced(p: Payment, ids: set<int>) {
    p.status.AwaitingTransfer? && exists j :: 0 <= j < |p.items| && p.items[j].invoice in ids
  }

  /** No customer order and no payment that stays holds this amount. */
  predicate Free(db: Db, c: Checkout, amount: int) {
    && amount !in c.taken
    && forall k :: 0 <= k < |db.payments| && db.payments[k].lock == Some(amount) ==> Replaced(db.payments[k], c.ids)
  }

  function Cost(db: Db, c: Checkout): int {
    Sum(ItemsOf(db.invoices, c.ids, |db.invoices|), ItemAmount())
  }

  /** The checkouts of these invoices are cancelled and lose their lock; the others stay. */
  lemma {:induction false} ReplacedAre(db: Db, c: Checkout)
    requires forall i :: i in c.ids ==> 0 <= i < |db.invoices|
    ensures var items := ItemsOf(db.invoices, c.ids, |db.invoices|);
            var payments := CancelFor(db.payments, InvoiceIds(items));
            && |payments| == |db.payments|
            && forall k :: 0 <= k < |db.payments| ==>
                 payments[k] == if Replaced(db.payments[k], c.ids) then db.payments[k].(status := Cancelled, lock := None)
                                else db.payments[k]
  {
    hide ItemsOf;
    var items := ItemsOf(db.invoices, c.ids, |db.invoices|);
    var ids := InvoiceIds(items);
    forall k | 0 <= k < |db.payments|
      ensures Touches(db.payments[k], ids) <==> exists j :: 0 <= j < |db.payments[k].items| && db.payments[k].items[j].invoice in c.ids
    {
      var p := db.payments[k];
      if l :| 0 <= l < |ids| && p.Holds(ids[l]) {
        assert ids[l] == items[l].invoice && items[l].invoice in c.ids;
      }
      if j :| 0 <= j < |p.items| && p.items[j].invoice in c.ids {
        ItemsComplete(db.invoices, c.ids, |db.invoices|, p.items[j].invoice);
        var l :| 0 <= l < |items| && items[l].invoice == p.items[j].invoice;
        assert ids[l] == p.items[j].invoice && p.Holds(ids[l]);
      }
    }
  }

  lemma {:induction false} StillLocked(db: Db, c: Checkout, amount: int)
    requires Inv(db) && forall i :: i in c.ids ==> 0 <= i < |db.invoices|
    ensures var payments := CancelFor(db.payments, InvoiceIds(ItemsOf(db.invoices, c.ids, |db.invoices|)));
            amount !in c.taken && LockFree(payments, amount) <==> Free(db, c, amount)
  {
    hide BooksOk, ItemsOf, CancelFor, Replaced;
    ReplacedAre(db, c);
  }

  /** The surcharge taken is the first that makes a free amount. */
  lemma {:induction false} FirstFreeIs(payments: seq<Payment>, taken: set<int>, total: int, extras: seq<int>) returns (j: nat)
    ensures j <= |extras| && forall l :: 0 <= l < j ==> total + extras[l] in taken || !LockFree(payments, total + extras[l])
    ensures FirstFree(payments, taken, total, extras) == if j < |extras| then Some(total + extras[j]) else None
    ensures j < |extras| ==> total + extras[j] !in taken && LockFree(payments, total + extras[j])
  {
    if extras == [] || (total + extras[0] !in taken && LockFree(payments, total + extras[0])) {
      j := 0;
    } else {
      var rest := FirstFreeIs(payments, taken, total, extras[1..]);
      j := rest + 1;
      forall l | 0 <= l < j ensures total + extras[l] in taken || !LockFree(payments, total + extras[l]) {
        if l > 0 {
          assert extras[1..][l - 1] == extras[l];
        }
      }
    }
  }

  lemma {:induction false} CostsSomething(db: Db, c: Checkout)
    requires Inv(db) && c.ids != {} && forall i :: i in c.ids ==> 0 <= i < |db.invoices| && db.invoices[i].status.Unpaid?
    ensures Cost(db, c) > 0
  {
    hide LinkOk, EntryOk, PaymentsOk, AllocOk;
    var items := ItemsOf(db.invoices, c.ids, |db.invoices|);
    forall i: nat | i < |db.invoices| && i in c.ids ensures db.invoices[i].Remaining() > 0 { assert InvoiceOk(db, i); }
    ItemsAmount(db.invoices, c.ids, |db.invoices|);
    assert exists i :: i in c.ids by { assert (forall i :: i !in c.ids) ==> c.ids == {}; }
    var i: int :| i in c.ids;
    ItemsComplete(db.invoices, c.ids, |db.invoices|, i);
    SumMember(items, ItemAmount());
    var j :| 0 <= j < |items| && items[j].invoice == i;
    assert ItemAmount()(items[j]) > 0;
  }

  /** A checkout is accepted exactly if it names some invoices, all of them ones the payer may pay and all unpaid, and some
      surcharge makes an amount that nobody holds. Refused, the answer names the first of these that fails. */
  lemma {:induction false} CheckoutWhen(db: Db, c: Checkout)
    requires Inv(db)
    ensures CreatePayment(db, c).Ok? <==>
              && c.ids != {}
              && (forall i :: i in c.ids ==> PayableBy(db, c, i) && db.invoices[i].status.Unpaid?)
              && (exists x :: x in c.extras && Free(db, c, Cost(db, c) + x))
    ensures c.ids == {} ==> CreatePayment(db, c) == Err(Invalid)
    ensures c.ids != {} && (exists i :: i in c.ids && !PayableBy(db, c, i)) ==> CreatePayment(db, c) == Err(Forbidden)
    ensures (c.ids != {} && (forall i :: i in c.ids ==> PayableBy(db, c, i))
             && exists i :: i in c.ids && !db.invoices[i].status.Unpaid?)
            ==> CreatePayment(db, c) == Err(Conflict)
    ensures CreatePayment(db, c).Err? && CreatePayment(db, c).error.Busy? ==>
              forall x :: x in c.extras ==> !Free(db, c, Cost(db, c) + x)
  {
    hide BooksOk, PaymentsOk, ItemsOf, CancelFor, Free, FirstFree;
    if c.ids != {} && (forall i :: i in c.ids ==> PayableBy(db, c, i) && db.invoices[i].status.Unpaid?) {
      CostsSomething(db, c);
      var total := Cost(db, c);
      var payments := CancelFor(db.payments, InvoiceIds(ItemsOf(db.invoices, c.ids, |db.invoices|)));
      forall a ensures a !in c.taken && LockFree(payments, a) <==> Free(db, c, a) { StillLocked(db, c, a); }
      var j := FirstFreeIs(payments, c.taken, total, c.extras);
      if j < |c.extras| {
        assert c.extras[j] in c.extras && Free(db, c, Cost(db, c) + c.extras[j]);
      } else {
        forall x | x in c.extras ensures !Free(db, c, total + x) {
          var l :| 0 <= l < |c.extras| && c.extras[l] == x;
        }
      }
    }
  }

  /** An accepted checkout is one new payment that waits for the transfer, of the first free amount above what the invoices
      cost; it replaces exactly the unfinished checkouts of those invoices, and changes nothing else. */
  lemma {:induction false} CheckoutExactly(db: Db, c: Checkout)
    requires Inv(db) && CreatePayment(db, c).Ok?
    ensures var d := CreatePayment(db, c).value;
            && d == db.(payments := d.payments) && |d.payments| == |db.payments| + 1
            && (forall k :: 0 <= k < |db.payments| ==>
                  d.payments[k] == if Replaced(db.payments[k], c.ids) then db.payments[k].(status := Cancelled, lock := None)
                                   else db.payments[k])
            && (var p := d.payments[|db.payments|];
                && p.status.AwaitingTransfer? && p.lock == Some(p.unique) && p.created == db.now && p.expires == c.expires
                && p.mismatch.None? && p.received.None? && p.shortfall.None? && !p.late
                && p.amount == Cost(db, c) && Free(db, c, p.unique)
                && exists j :: 0 <= j < |c.extras| && p.unique == p.amount + c.extras[j]
                               && forall l :: 0 <= l < j ==> !Free(db, c, p.amount + c.extras[l]))
  {
    hide BooksOk, PaymentsOk, ItemsOf, CancelFor, Free, FirstFree, Replaced;
    var items := ItemsOf(db.invoices, c.ids, |db.invoices|);
    var payments := CancelFor(db.payments, InvoiceIds(items));
    ReplacedAre(db, c);
    var total := Cost(db, c);
    forall a ensures a !in c.taken && LockFree(payments, a) <==> Free(db, c, a) { StillLocked(db, c, a); }
    var j := FirstFreeIs(payments, c.taken, total, c.extras);
  }

  /** The one checkout for a whole group is a checkout like any other: it waits until the time given for it, for its total and
      one of the surcharges, an amount nobody else holds; and it replaces the unfinished checkouts of its invoices only. */
  lemma {:induction false} GroupCheckout(db: Db, o: Order)
    requires Inv(db) && NoDup(o.names) && PayEverything(db, o).Created?
    ensures var d := PayEverything(db, o).db;
            && |d.payments| == |db.payments| + 1
            && (var p := d.payments[|db.payments|];
                && p.status.AwaitingTransfer? && p.lock == Some(p.unique) && p.created == db.now && p.expires == o.expires
                && p.unique !in o.taken && (exists j :: 0 <= j < |o.extras| && p.unique == p.amount + o.extras[j])
                && (forall k :: 0 <= k < |db.payments| ==>
                      && d.payments[k].lock != Some(p.unique)
                      && (d.payments[k] == db.payments[k]
                          || (db.payments[k].status.AwaitingTransfer? && (exists i: nat :: p.Holds(i) && db.payments[k].Holds(i))
                              && d.payments[k] == db.payments[k].(status := Cancelled, lock := None)))))
  {
    hide Inv, GatheredOk, CreatePayment, GatherUpTo, PayAll.Payable, Replaced, ItemsOf;
    GatherAll(db, o.names, o.onPanel, |o.names|);
    var g := GatherUpTo(db, o.names, o.onPanel, |o.names|).value;
    var c := CheckoutFor(o, g.ids);
    GatheredKeeps(db, o, g);
    GatherNow(db, o.names, o.onPanel, |o.names|);
    CheckoutExactly(g.db, c);
    CreatePaymentKeeps(g.db, c);
    FreshLock(g.db, CreatePayment(g.db, c).value);
    forall k | 0 <= k < |db.payments| && Replaced(db.payments[k], c.ids)
      ensures db.payments[k].status.AwaitingTransfer?
      ensures exists i: nat :: PayEverything(db, o).db.payments[|db.payments|].Holds(i) && db.payments[k].Holds(i)
    {
      ReplacedHolds(db.payments[k], c.ids);
    }
  }

  lemma {:induction false} GatherNow(db: Db, names: seq<Admin>, onPanel: set<Admin>, k: nat)
    requires k <= |names| && GatherUpTo(db, names, onPanel, k).Ok?
    ensures GatherUpTo(db, names, onPanel, k).value.db.now == db.now
  {
    hide OldBalance;
    if k > 0 {
      GatherNow(db, names, onPanel, k - 1);
    }
  }

  lemma {:induction false} GatheredKeeps(db: Db, o: Order, g: Gathered)
    requires GatheredOk(db, o.names, |o.names|, g)
    ensures Inv(g.db) && g.db.payments == db.payments
  {
  }

  lemma {:induction false} ReplacedHolds(p: Payment, ids: set<int>)
    requires Replaced(p, ids)
    ensures p.status.AwaitingTransfer? && exists i: nat :: i in ids && p.Holds(i)
  {
    var j :| 0 <= j < |p.items| && p.items[j].invoice in ids;
    assert p.Holds(p.items[j].invoice);
  }

  /** A new payment shares its amount with none before it. */
  lemma {:induction false} FreshLock(db: Db, d: Db)
    requires Inv(d) && |d.payments| == |db.payments| + 1 && d.payments[|db.payments|].lock.Some?
    ensures forall k :: 0 <= k < |db.payments| ==> d.payments[k].lock != d.payments[|db.payments|].lock
  {
  }

  // ---- a receipt ----

  /** A receipt is accepted while the payment is under review, or waits for the transfer and its time is not over: which is
      exactly when the next sweep would not expire it. */
  lemma {:induction false} ReceiptWhen(db: Db, k: nat, allowed: bool)
    ensures SubmitReceipt(db, k, allowed).Ok? <==>
              && k < |db.payments| && allowed
              && (db.payments[k].status.InReview? || (db.payments[k].status.AwaitingTransfer? && db.now <= db.payments[k].expires))
    ensures SubmitReceipt(db, k, allowed).Err? ==>
              SubmitReceipt(db, k, allowed).error == if k < |db.payments| && allowed then Conflict else NotFound
    ensures k < |db.payments| && db.payments[k].status.AwaitingTransfer? && allowed ==>
              (SubmitReceipt(db, k, allowed).Ok? <==> ExpireStale(db).payments[k] == db.payments[k])
  {
    hide MarkItems;
    if k < |db.payments| && db.payments[k].status.AwaitingTransfer? {
      assert ExpireIf(db.payments[k], db.now) == db.payments[k] <==> db.now <= db.payments[k].expires;
    }
  }

  lemma {:induction false} CancelWhen(db: Db, k: nat, allowed: bool)
    ensures CancelPayment(db, k, allowed).Ok? <==> k < |db.payments| && allowed && db.payments[k].status.AwaitingTransfer?
    ensures CancelPayment(db, k, allowed).Err? ==>
              CancelPayment(db, k, allowed).error == if k < |db.payments| && allowed then Conflict else NotFound
  {
  }

  // ---- a rejection ----

  /** A payment can be rejected, for a reason, while it is not decided; it loses its lock, and its invoices that were under
      review are unpaid again. Nothing else changes. */
  lemma {:induction false} RejectExactly(db: Db, k: nat, why: bool)
    ensures RejectPayment(db, k, why).Ok? <==>
              && k < |db.payments| && why
              && (db.payments[k].status.AwaitingTransfer? || db.payments[k].status.InReview? || db.payments[k].status.Expired?)
    ensures RejectPayment(db, k, why).Err? ==>
              RejectPayment(db, k, why).error == if k >= |db.payments| then NotFound
                                                 else if db.payments[k].status.AwaitingTransfer? || db.payments[k].status.InReview?
                                                         || db.payments[k].status.Expired? then Invalid
                                                 else Conflict
    ensures RejectPayment(db, k, why).Ok? ==>
              var d := RejectPayment(db, k, why).value;
              && d == db.(payments := d.payments, invoices := d.invoices)
              && d.payments == db.payments[k := db.payments[k].(status := Rejected, lock := None)]
              && |d.invoices| == |db.invoices|
              && forall i :: 0 <= i < |db.invoices| ==>
                   d.invoices[i] == if db.payments[k].Holds(i) && db.invoices[i].status.Pending? then db.invoices[i].(status := Unpaid)
                                    else db.invoices[i]
  {
    if RejectPayment(db, k, why).Ok? {
      var p := db.payments[k].(status := Rejected).WithLock();
      forall i | 0 <= i < |db.invoices| ensures p.Holds(i) <==> db.payments[k].Holds(i) { HoldsSame(p, db.payments[k], i); }
    }
  }

  // ---- a near miss, an ambiguous deposit ----

  /** Some other payment holds the unique amount of payment k. */
  predicate Clashes(db: Db, k: nat)
    requires k < |db.payments|
  {
    exists j :: 0 <= j < |db.payments| && j != k && db.payments[j].lock == Some(db.payments[k].unique)
  }

  predicate Undecided(p: Payment) {
    p.status.AwaitingTransfer? || p.status.InReview? || p.status.Expired?
  }

  /** A near miss is noted on whatever payment it was matched with: one that is undecided comes under review, unless another
      payment has taken its amount meanwhile; a decided one keeps its status and only the note shows that it came late. The
      unpaid ones of its invoices are under review. Nothing else changes. */
  lemma {:induction false} FlagExactly(db: Db, k: nat, x: int)
    requires Inv(db)
    ensures FlagMismatch(db, k, x).Ok? <==> k < |db.payments| && (Undecided(db.payments[k]) ==> !Clashes(db, k))
    ensures FlagMismatch(db, k, x).Err? ==> FlagMismatch(db, k, x).error == if k >= |db.payments| then NotFound else Conflict
    ensures FlagMismatch(db, k, x).Ok? ==>
              var d, p := FlagMismatch(db, k, x).value, db.payments[k];
              && d == db.(payments := d.payments, invoices := d.invoices)
              && d.payments == db.payments[k := if Undecided(p) then p.(mismatch := Some(x), status := InReview, lock := Some(p.unique))
                                                else p.(mismatch := Some(x), late := true)]
              && |d.invoices| == |db.invoices|
              && forall i :: 0 <= i < |db.invoices| ==>
                   d.invoices[i] == if p.Holds(i) && db.invoices[i].status.Unpaid? then db.invoices[i].(status := Pending)
                                    else db.invoices[i]
  {
    hide BooksOk, AllCovered;
    if k < |db.payments| {
      var p, q := db.payments[k], Flagged(db.payments[k], x);
      assert PaymentOk(db, p);
      assert LockAvailable(db.payments, k, q) <==> (Undecided(p) ==> !Clashes(db, k));
      forall i | 0 <= i < |db.invoices| ensures q.Holds(i) <==> p.Holds(i) { HoldsSame(q, p, i); }
    }
  }

  lemma {:induction false} HoldWhen(db: Db, k: nat)
    ensures HoldAmbiguous(db, k).Ok? <==> k < |db.payments| && !Clashes(db, k)
    ensures HoldAmbiguous(db, k).Err? ==> HoldAmbiguous(db, k).error == if k >= |db.payments| then NotFound else Conflict
  {
    hide MarkItems;
    if k < |db.payments| {
      assert LockAvailable(db.payments, k, db.payments[k].(status := InReview).WithLock()) <==> !Clashes(db, k);
    }
  }

  // ---- an approval ----

  /** Every payment but a cancelled one can be approved; one that is approved already stays as it is. */
  lemma {:induction false} ApproveWhen(db: Db, k: nat, deposit: Option<int>)
    requires Inv(db)
    ensures ApprovePayment(db, k, deposit).Ok? <==> k < |db.payments| && !db.payments[k].status.Cancelled?
    ensures ApprovePayment(db, k, deposit).Err? ==>
              ApprovePayment(db, k, deposit).error == if k < |db.payments| then Conflict else NotFound
    ensures k < |db.payments| && db.payments[k].status.Approved? ==> ApprovePayment(db, k, deposit) == Ok(db)
  {
    hide BooksOk, AllCovered, EnforceUpTo, SettlePayment;
    assert k < |db.payments| ==> PaymentOk(db, db.payments[k]);
  }
}
