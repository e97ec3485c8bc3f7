// Checkouts: creating, cancelling, reviewing, rejecting and expiring payments, and
// deposits whose amount does not match.
module Payments {
  import opened Wrappers
  import opened Records
  import opened Sums
  import opened Books
  import opened Enforcement
  import opened Ledger

  // ---- creating a checkout ----

  /** What is left to pay on the chosen ones among the first k invoices, newest first. */
  function ItemsOf(invoices: seq<Invoice>, ids: set<int>, k: nat): (items: seq<Item>)
    requires k <= |invoices|
    ensures forall j :: 0 <= j < |items| ==>
              items[j].invoice < k && items[j].invoice in ids && items[j].amount == invoices[items[j].invoice].Remaining()
    ensures forall j, l :: 0 <= j < l < |items| ==> items[j].invoice > items[l].invoice
  {
    if k == 0 then []
    else if k - 1 in ids then [Item(k - 1, invoices[k - 1].Remaining())] + ItemsOf(invoices, ids, k - 1)
    else ItemsOf(invoices, ids, k - 1)
  }

  function InvoiceIds(items: seq<Item>): seq<nat> {
    seq(|items|, k requires 0 <= k < |items| => items[k].invoice)
  }

  predicate LockFree(payments: seq<Payment>, amount: int) {
    forall k :: 0 <= k < |payments| ==> payments[k].lock != Some(amount)
  }

  /** The first surcharge whose total neither a customer order nor another payment holds. */
  function FirstFree(payments: seq<Payment>, taken: set<int>, total: int, extras: seq<int>): (r: Option<int>)
    ensures r.Some? ==> r.value !in taken && LockFree(payments, r.value) && r.value - total in extras
    ensures r.None? ==> forall x :: x in extras ==> total + x in taken || !LockFree(payments, total + x)
  {
    if extras == [] then None
    else if total + extras[0] !in taken && LockFree(payments, total + extras[0]) then Some(total + extras[0])
    else
      assert extras == [extras[0]] + extras[1..];
      FirstFree(payments, taken, total, extras[1..])
  }

  datatype Checkout = Checkout(ids: set<int>, mayPay: set<Admin>, expires: int, taken: set<int>, extras: seq<int>)

  function NewPayment(items: seq<Item>, unique: int, now: int, expires: int): Payment {
    Payment(Sum(items, ItemAmount()), unique, Some(unique), AwaitingTransfer, items, now, expires, None, None, None, false)
  }

  /** One checkout of these unpaid invoices; it replaces any unfinished checkout of one of them. */
  function CreatePayment(db: Db, c: Checkout): Result<Db, Refusal> {
    if c.ids == {} then Err(Invalid)
    else if exists i :: i in c.ids && !(0 <= i < |db.invoices| && db.invoices[i].admin in c.mayPay) then Err(Forbidden)
    else if exists i :: i in c.ids && !db.invoices[i].status.Unpaid? then Err(Conflict)
    else
      var items := ItemsOf(db.invoices, c.ids, |db.invoices|);
      var payments := CancelFor(db.payments, InvoiceIds(items));
      var total := Sum(items, ItemAmount());
      if total <= 0 then Err(Nothing)
      else
        match FirstFree(payments, c.taken, total, c.extras)
        case None => Err(Busy)
        case Some(unique) => Ok(db.(payments := payments + [NewPayment(items, unique, db.now, c.expires)]))
  }

  // ---- one payment changes ----

  function MarkIf(v: Invoice, held: bool, from: InvoiceStatus, to: InvoiceStatus): Invoice {
    if held && v.status == from then v.(status := to) else v
  }

  /** The payment's invoices that are in status from go to status to. */
  function MarkItems(invoices: seq<Invoice>, p: Payment, from: InvoiceStatus, to: InvoiceStatus): seq<Invoice> {
    seq(|invoices|, i requires 0 <= i < |invoices| => MarkIf(invoices[i], p.Holds(i), from, to))
  }

  function SetPayment(db: Db, k: nat, p: Payment): Db
    requires k < |db.payments|
  {
    db.(payments := db.payments[k := p])
  }

  /** No other payment holds the lock of p. */
  predicate LockAvailable(payments: seq<Payment>, k: nat, p: Payment) {
    forall j :: 0 <= j < |payments| && j != k && p.lock.Some? ==> payments[j].lock != p.lock
  }

  function Review(db: Db, k: nat, p: Payment): Db
    requires k < |db.payments|
  {
    SetPayment(db, k, p).(invoices := MarkItems(db.invoices, p, Unpaid, Pending))
  }

  function SubmitReceipt(db: Db, k: nat, allowed: bool): Result<Db, Refusal> {
    if k >= |db.payments| || !allowed then Err(NotFound)
    else
      var p := db.payments[k];
      if !p.Active() then Err(Conflict)
      else if p.status.AwaitingTransfer? && p.expires < db.now then Err(Conflict)
      else Ok(Review(db, k, p.(status := InReview).WithLock()))
  }

  function CancelPayment(db: Db, k: nat, allowed: bool): Result<Db, Refusal> {
    if k >= |db.payments| || !allowed then Err(NotFound)
    else if !db.payments[k].status.AwaitingTransfer? then Err(Conflict)
    else Ok(SetPayment(db, k, db.payments[k].(status := Cancelled).WithLock()))
  }

  function RejectPayment(db: Db, k: nat, reasonGiven: bool): Result<Db, Refusal> {
    if k >= |db.payments| then Err(NotFound)
    else
      var p := db.payments[k];
      if !p.Matchable() then Err(Conflict)
      else if !reasonGiven then Err(Invalid)
      else
        var p' := p.(status := Rejected).WithLock();
        Ok(SetPayment(db, k, p').(invoices := MarkItems(db.invoices, p', Pending, Unpaid)))
  }

  function ExpireIf(p: Payment, now: int): Payment {
    if p.status.AwaitingTransfer? && p.expires < now then p.(status := Expired).WithLock() else p
  }

  function ExpireStale(db: Db): Db {
    db.(payments := seq(|db.payments|, k requires 0 <= k < |db.payments| => ExpireIf(db.payments[k], db.now)))
  }

  function Differing(before: seq<Payment>, after: seq<Payment>): set<int> {
    set k | 0 <= k < |before| && k < |after| && before[k] != after[k]
  }

  lemma {:induction false} DifferingIs(before: seq<Payment>, after: seq<Payment>, ks: set<int>)
    requires |before| == |after| && forall k :: k in ks <==> 0 <= k < |after| && after[k] != before[k]
    ensures ks == Differing(before, after)
  {
  }

  function Flagged(p: Payment, amount: int): Payment {
    p.(mismatch := Some(amount), late := p.late || !p.Matchable(),
       status := if p.status.AwaitingTransfer? || p.status.Expired? then InReview else p.status).WithLock()
  }

  /** A deposit near this payment's amount: staff must look. A lock taken meanwhile aborts. */
  function FlagMismatch(db: Db, k: nat, amount: int): Result<Db, Refusal> {
    if k >= |db.payments| then Err(NotFound)
    else
      var p := Flagged(db.payments[k], amount);
      if !LockAvailable(db.payments, k, p) then Err(Conflict) else Ok(Review(db, k, p))
  }

  /** A deposit that also fits a customer order: staff decide. */
  function HoldAmbiguous(db: Db, k: nat): Result<Db, Refusal> {
    if k >= |db.payments| then Err(NotFound)
    else
      var p := db.payments[k].(status := InReview).WithLock();
      if !LockAvailable(db.payments, k, p) then Err(Conflict) else Ok(Review(db, k, p))
  }

  // ---- what they keep ----

  /** Invoices change between unpaid and under review only. */
  ghost predicate OnlyMarks(db: Db, d: Db) {
    && d.entries == db.entries && d.allocs == db.allocs && d.now == db.now
    && |d.invoices| == |db.invoices|
    && (forall i :: 0 <= i < |db.invoices| ==>
          d.invoices[i] == db.invoices[i]
          || (db.invoices[i].status.Unpaid? && d.invoices[i] == db.invoices[i].(status := Pending))
          || (db.invoices[i].status.Pending? && d.invoices[i] == db.invoices[i].(status := Unpaid)))
  }

  lemma {:induction false} MarksKeepBooks(db: Db, d: Db)
    requires BooksOk(db) && OnlyMarks(db, d)
    ensures BooksOk(d)
    ensures forall m :: OpenTotal(d, m) == OpenTotal(db, m) && Balance(d, m) == Balance(db, m)
  {
    forall i | 0 <= i < |d.invoices| ensures InvoiceOk(d, i) && LinkOk(d, i) {
      assert InvoiceOk(db, i) && LinkOk(db, i);
      forall c | 0 <= c < i ensures d.invoices[c].created == db.invoices[c].created && d.invoices[c].entry == db.invoices[c].entry {}
    }
    forall e | 0 <= e < |d.entries| ensures EntryOk(d, e) { assert EntryOk(db, e); }
    forall j | 0 <= j < |d.allocs| ensures AllocOk(d, d.allocs[j]) { assert AllocOk(db, db.allocs[j]); }
    forall m ensures OpenTotal(d, m) == OpenTotal(db, m) {
      SumEqual(d.invoices, OpenOf(m), db.invoices, OpenOf(m));
    }
  }

  /** More under review: every debt rule is as good as before. */
  lemma {:induction false} MoreReview(db: Db, d: Db, m: Admin)
    requires OnlyMarks(db, d)
    requires forall i :: 0 <= i < |db.invoices| && db.invoices[i].status.Pending? ==> d.invoices[i].status.Pending?
    ensures ReviewTotal(d, m) >= ReviewTotal(db, m)
  {
    SumAtMost(db.invoices, ReviewOf(m), d.invoices, ReviewOf(m));
  }

  /** Changing one payment keeps the payment rules if its own are right, no lock clashes, and it is not
      a new unfinished checkout. */
  lemma {:induction false} LocksStayDistinct(payments: seq<Payment>, k: nat, p: Payment)
    requires k < |payments| && LocksDistinct(payments) && LockAvailable(payments, k, p)
    ensures LocksDistinct(payments[k := p])
  {
  }

  lemma {:induction false} StillOneCheckout(payments: seq<Payment>, k: nat, p: Payment)
    requires k < |payments| && OneCheckout(payments) && p.items == payments[k].items
    requires p.status.AwaitingTransfer? ==> payments[k].status.AwaitingTransfer?
    ensures OneCheckout(payments[k := p])
  {
    assert forall i :: p.Holds(i) == payments[k].Holds(i);
  }

  lemma {:induction false} SetPaymentKeeps(db: Db, k: nat, p: Payment, invoices: seq<Invoice>)
    requires PaymentRules(db) && k < |db.payments|
    requires |invoices| == |db.invoices|
    requires p.items == db.payments[k].items && p.amount == db.payments[k].amount && p == p.WithLock()
    requires LockAvailable(db.payments, k, p)
    requires p.status.AwaitingTransfer? ==> db.payments[k].status.AwaitingTransfer?
    ensures PaymentRules(SetPayment(db, k, p).(invoices := invoices))
  {
    hide LocksDistinct;
    hide OneCheckout;
    var d := SetPayment(db, k, p).(invoices := invoices);
    assert PaymentOk(db, db.payments[k]);
    forall j | 0 <= j < |d.payments| ensures PaymentOk(d, d.payments[j]) {
      assert PaymentOk(db, db.payments[j]);
    }
    LocksStayDistinct(db.payments, k, p);
    StillOneCheckout(db.payments, k, p);
  }

  /** A payment that keeps or loses its lock clashes with nobody. */
  lemma {:induction false} OwnLockAvailable(db: Db, k: nat, p: Payment)
    requires PaymentRules(db) && k < |db.payments|
    requires p.unique == db.payments[k].unique && p == p.WithLock()
    requires p.Active() ==> db.payments[k].Active()
    ensures LockAvailable(db.payments, k, p)
  {
    assert PaymentOk(db, db.payments[k]);
  }

  lemma {:induction false} ReviewKeeps(db: Db, k: nat, p: Payment)
    requires Inv(db) && k < |db.payments|
    requires p.items == db.payments[k].items && p.amount == db.payments[k].amount && p == p.WithLock()
    requires (p.status.InReview? || p.late) && !p.status.AwaitingTransfer? && LockAvailable(db.payments, k, p)
    ensures Keeps(db, Review(db, k, p))
  {
    var d := Review(db, k, p);
    SetPaymentKeeps(db, k, p, d.invoices);
    MarksKeepBooks(db, d);
    forall i | 0 <= i < |d.invoices| ensures ReviewCovered(d, i) {
      if d.invoices[i].status.Pending? {
        if p.Holds(i) {
          assert d.payments[k] == p && p.Covers(i);
        } else {
          assert ReviewCovered(db, i);
          var j :| 0 <= j < |db.payments| && db.payments[j].Covers(i);
          HoldsSame(p, db.payments[k], i);
          assert j != k && d.payments[j] == db.payments[j];
        }
      }
    }
    forall m | WithinDebt(db, m) ensures WithinDebt(d, m) { MoreReview(db, d, m); }
  }

  /** Payment k and the unpaid ones of its invoices are under review, and nothing else has changed. */
  ghost predicate UnderReviewNow(db: Db, d: Db, k: nat)
    requires k < |db.payments|
  {
    && d == db.(payments := d.payments, invoices := d.invoices)
    && |d.payments| == |db.payments| && |d.invoices| == |db.invoices|
    && d.payments[k].status.InReview? && d.payments[k].lock == Some(db.payments[k].unique)
    && d.payments[k] == db.payments[k].(status := InReview, lock := d.payments[k].lock)
    && (forall j :: 0 <= j < |db.payments| && j != k ==> d.payments[j] == db.payments[j])
    && (forall i :: 0 <= i < |db.invoices| ==>
          d.invoices[i] == if db.payments[k].Holds(i) && db.invoices[i].status.Unpaid? then db.invoices[i].(status := Pending)
                           else db.invoices[i])
  }

  lemma {:induction false} ReviewMarks(db: Db, k: nat)
    requires k < |db.payments|
    ensures UnderReviewNow(db, Review(db, k, db.payments[k].(status := InReview).WithLock()), k)
  {
    var p := db.payments[k].(status := InReview).WithLock();
    forall i | 0 <= i < |db.invoices| ensures p.Holds(i) <==> db.payments[k].Holds(i) { HoldsSame(p, db.payments[k], i); }
  }

  /** A receipt puts the payment, and the unpaid ones of its invoices, under review. */
  lemma {:induction false} SubmitReceiptKeeps(db: Db, k: nat, allowed: bool)
    requires Inv(db) && SubmitReceipt(db, k, allowed).Ok?
    ensures Keeps(db, SubmitReceipt(db, k, allowed).value)
    ensures UnderReviewNow(db, SubmitReceipt(db, k, allowed).value, k)
  {
    ReviewMarks(db, k);
    var p := db.payments[k].(status := InReview).WithLock();
    OwnLockAvailable(db, k, p);
    ReviewKeeps(db, k, p);
  }

  /** A hold does the same, whatever the payment's status was. */
  lemma {:induction false} HoldAmbiguousKeeps(db: Db, k: nat)
    requires Inv(db) && HoldAmbiguous(db, k).Ok?
    ensures Keeps(db, HoldAmbiguous(db, k).value)
    ensures UnderReviewNow(db, HoldAmbiguous(db, k).value, k)
  {
    ReviewMarks(db, k);
    ReviewKeeps(db, k, db.payments[k].(status := InReview).WithLock());
  }

  lemma {:induction false} FlagMismatchKeeps(db: Db, k: nat, amount: int)
    requires Inv(db) && FlagMismatch(db, k, amount).Ok?
    ensures Keeps(db, FlagMismatch(db, k, amount).value)
  {
    ReviewKeeps(db, k, Flagged(db.payments[k], amount));
  }

  /** Every invoice under review is an item of a payment under review: what the statuses are for. */
  ghost predicate AllReviewed(db: Db) {
    forall i :: 0 <= i < |db.invoices| && db.invoices[i].status.Pending? ==> Reviewed(db, i)
  }

  ghost predicate Reviewed(db: Db, i: nat) {
    exists j :: 0 <= j < |db.payments| && db.payments[j].status.InReview? && db.payments[j].Holds(i)
  }

  /** A near miss that reaches a payment already decided meanwhile: it stays so if and only if every unpaid
      invoice of that payment is an item of another payment under review. */
  lemma {:induction false} LateFlag(db: Db, k: nat, amount: int)
    requires AllReviewed(db) && FlagMismatch(db, k, amount).Ok? && !db.payments[k].Matchable()
    ensures AllReviewed(FlagMismatch(db, k, amount).value) <==>
            forall i :: 0 <= i < |db.invoices| && db.invoices[i].status.Unpaid? && db.payments[k].Holds(i) ==> Reviewed(db, i)
  {
    var p, d := Flagged(db.payments[k], amount), FlagMismatch(db, k, amount).value;
    forall i: nat ensures Reviewed(d, i) <==> Reviewed(db, i) {
      HoldsSame(p, db.payments[k], i);
      if Reviewed(d, i) {
        var j :| 0 <= j < |d.payments| && d.payments[j].status.InReview? && d.payments[j].Holds(i);
        assert db.payments[j].status.InReview? && db.payments[j].Holds(i);
      }
      if Reviewed(db, i) {
        var j :| 0 <= j < |db.payments| && db.payments[j].status.InReview? && db.payments[j].Holds(i);
        assert d.payments[j].status.InReview? && d.payments[j].Holds(i);
      }
    }
    forall i | 0 <= i < |db.invoices| ensures p.Holds(i) <==> db.payments[k].Holds(i) { HoldsSame(p, db.payments[k], i); }
  }

  /** Cancelled and expired checkouts only lose their lock. */
  lemma {:induction false} CancelPaymentKeeps(db: Db, k: nat, allowed: bool)
    requires Inv(db) && CancelPayment(db, k, allowed).Ok?
    ensures Keeps(db, CancelPayment(db, k, allowed).value)
    ensures CancelPayment(db, k, allowed).value
         == db.(payments := db.payments[k := db.payments[k].(status := Cancelled, lock := None)])
  {
    CancelKeeps(db, CancelPayment(db, k, allowed).value);
    BooksSame(db, CancelPayment(db, k, allowed).value);
  }

  lemma {:induction false} ExpireStaleKeeps(db: Db)
    requires Inv(db)
    ensures Keeps(db, ExpireStale(db))
    ensures var d := ExpireStale(db);
            && d == db.(payments := d.payments) && |d.payments| == |db.payments|
            && forall k :: 0 <= k < |db.payments| ==>
                 d.payments[k] == if db.payments[k].status.AwaitingTransfer? && db.payments[k].expires < db.now
                                  then db.payments[k].(status := Expired, lock := None) else db.payments[k]
  {
    CancelKeeps(db, ExpireStale(db));
    BooksSame(db, ExpireStale(db));
  }

  lemma {:induction false} HoldsSame(p: Payment, q: Payment, i: nat)
    requires p.items == q.items
    ensures p.Holds(i) <==> q.Holds(i)
  {
  }

  /** Every open invoice of m is under review, and not because of payment k. */
  ghost predicate OthersReviewAll(db: Db, k: nat, m: Admin)
    requires k < |db.payments|
  {
    forall i :: 0 <= i < |db.invoices| && db.invoices[i].admin == m && db.invoices[i].IsOpen() ==>
      db.invoices[i].status.Pending? && !db.payments[k].Holds(i)
  }

  /** Rejecting keeps the invariant and moves no money, but it takes invoices out of review without
      enforcing: an admin's debt rule holds afterwards exactly if its open invoices are within the
      debt, or are all under review and none of them through this payment. */
  lemma {:induction false} RejectPaymentKeeps(db: Db, k: nat, reasonGiven: bool, m: Admin)
    requires Inv(db) && RejectPayment(db, k, reasonGiven).Ok?
    ensures var d := RejectPayment(db, k, reasonGiven).value;
            && Inv(d)
            && OpenTotal(d, m) == OpenTotal(db, m) && Balance(d, m) == Balance(db, m)
            && (WithinDebt(d, m) <==> OpenTotal(db, m) <= Debt(db, m) || OthersReviewAll(db, k, m))
  {
    var p := db.payments[k].(status := Rejected).WithLock();
    var d := RejectPayment(db, k, reasonGiven).value;
    SetPaymentKeeps(db, k, p, d.invoices);
    MarksKeepBooks(db, d);
    forall i | 0 <= i < |d.invoices| ensures ReviewCovered(d, i) {
      if d.invoices[i].status.Pending? {
        assert ReviewCovered(db, i);
        var j :| 0 <= j < |db.payments| && db.payments[j].Covers(i);
        HoldsSame(p, db.payments[k], i);
        assert j != k && d.payments[j] == db.payments[j];
      }
    }
    OpenSplits(d.invoices, m);
    NothingUnpaid(d, m);
    forall i | 0 <= i < |d.invoices|
      ensures d.invoices[i].admin == m && d.invoices[i].status.Unpaid?
         <==> db.invoices[i].admin == m && db.invoices[i].IsOpen() && (db.invoices[i].status.Unpaid? || db.payments[k].Holds(i))
    {
      HoldsSame(p, db.payments[k], i);
    }
  }

  /** Nothing is left unpaid exactly if no invoice is unpaid. */
  lemma {:induction false} NothingUnpaid(db: Db, m: Admin)
    requires BooksOk(db)
    ensures UnpaidTotal(db, m) == 0 <==> forall i :: 0 <= i < |db.invoices| ==> !(db.invoices[i].admin == m && db.invoices[i].status.Unpaid?)
  {
    SumMember(db.invoices, UnpaidOf(m));
    forall i | 0 <= i < |db.invoices| && db.invoices[i].admin == m && db.invoices[i].status.Unpaid?
      ensures UnpaidTotal(db, m) > 0
    {
      assert InvoiceOk(db, i);
      assert UnpaidOf(m)(db.invoices[i]) > 0;
    }
    if forall i :: 0 <= i < |db.invoices| ==> !(db.invoices[i].admin == m && db.invoices[i].status.Unpaid?) {
      SumZero(db.invoices, UnpaidOf(m));
    }
  }

  // ---- the new checkout ----

  lemma {:induction false} ItemsAmount(invoices: seq<Invoice>, ids: set<int>, k: nat)
    requires k <= |invoices|
    requires forall i :: 0 <= i < k && i in ids ==> invoices[i].Remaining() > 0
    ensures forall j :: 0 <= j < |ItemsOf(invoices, ids, k)| ==> ItemsOf(invoices, ids, k)[j].amount > 0
    ensures Sum(ItemsOf(invoices, ids, k), ItemAmount()) >= 0
  {
    var items := ItemsOf(invoices, ids, k);
    forall j | 0 <= j < |items| ensures items[j].amount > 0 && ItemAmount()(items[j]) > 0 {
      assert items[j].invoice in ids;
    }
    SumMember(items, ItemAmount());
  }

  lemma {:induction false} ItemsComplete(invoices: seq<Invoice>, ids: set<int>, k: nat, i: nat)
    requires i < k <= |invoices| && i in ids
    ensures exists j :: 0 <= j < |ItemsOf(invoices, ids, k)| && ItemsOf(invoices, ids, k)[j].invoice == i
  {
    var items := ItemsOf(invoices, ids, k);
    if i == k - 1 {
      assert items[0].invoice == i;
    } else {
      ItemsComplete(invoices, ids, k - 1, i);
      var rest := ItemsOf(invoices, ids, k - 1);
      var j :| 0 <= j < |rest| && rest[j].invoice == i;
      assert items[if k - 1 in ids then j + 1 else j].invoice == i;
    }
  }

  /** After the old checkouts of its items are cancelled, a new checkout shares no invoice and no lock with another. */
  lemma {:induction false} PushPaymentKeeps(db: Db, payments: seq<Payment>, p: Payment)
    requires Inv(db)
    requires payments == CancelFor(db.payments, InvoiceIds(p.items))
    requires PaymentOk(db, p) && p.status.AwaitingTransfer? && LockFree(payments, p.unique)
    ensures Keeps(db, db.(payments := payments + [p]))
  {
    var d0, d := db.(payments := payments), db.(payments := payments + [p]);
    CancelKeeps(db, d0);
    BooksSame(db, d);
    forall j | 0 <= j < |d.payments| ensures PaymentOk(d, d.payments[j]) {
      assert j < |payments| ==> PaymentOk(d0, payments[j]);
    }
    forall j, i: nat | 0 <= j < |payments| && payments[j].status.AwaitingTransfer? && payments[j].Holds(i) ensures !p.Holds(i) {
      if p.Holds(i) {
        var l :| 0 <= l < |p.items| && p.items[l].invoice == i;
        assert InvoiceIds(p.items)[l] == i;
        assert Touches(db.payments[j], InvoiceIds(p.items));
      }
    }
    forall i | 0 <= i < |d.invoices| ensures ReviewCovered(d, i) {
      if d.invoices[i].status.Pending? {
        assert ReviewCovered(d0, i);
        var j :| 0 <= j < |payments| && payments[j].Covers(i);
        assert d.payments[j] == payments[j];
      }
    }
  }

  /** An accepted checkout keeps everything, holds exactly the chosen invoices, each for all that is left
      of it, and its amount is their total. */
  lemma {:induction false} CreatePaymentKeeps(db: Db, c: Checkout)
    requires Inv(db) && CreatePayment(db, c).Ok?
    ensures Keeps(db, CreatePayment(db, c).value)
    ensures var d := CreatePayment(db, c).value;
            && |d.payments| == |db.payments| + 1
            && var p := d.payments[|db.payments|];
            && p.amount == Sum(p.items, ItemAmount()) > 0
            && p.unique !in c.taken
            && (forall i: nat :: p.Holds(i) <==> i in c.ids)
            && (forall j :: 0 <= j < |p.items| ==> p.items[j].amount == db.invoices[p.items[j].invoice].Remaining())
  {
    var d := CreatePayment(db, c).value;
    var items := ItemsOf(db.invoices, c.ids, |db.invoices|);
    var p := d.payments[|db.payments|];
    forall i: nat | i < |db.invoices| && i in c.ids ensures db.invoices[i].Remaining() > 0 { assert InvoiceOk(db, i); }
    ItemsAmount(db.invoices, c.ids, |db.invoices|);
    PushPaymentKeeps(db, CancelFor(db.payments, InvoiceIds(items)), p);
    forall i: nat ensures p.Holds(i) <==> i in c.ids {
      if i in c.ids {
        ItemsComplete(db.invoices, c.ids, |db.invoices|, i);
      }
    }
  }
}
