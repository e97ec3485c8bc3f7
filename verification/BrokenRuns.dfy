// Concrete runs in which a rule that one may expect fails.
module BrokenRuns {
  import opened Wrappers
  import opened Records
  import opened Sums
  import opened Books
  import opened Enforcement
  import opened Ledger
  import opened Payments
  import opened Approving
  import opened RoundTrip
  import opened Runs
  import opened Moving
  import opened PaymentRuns
  import opened ReviewRuns

  // ---- a rejection can break the debt rule, until the next ledger change ----

  const CHARGED := Entry(1, EntryKind.QuotaCharge, 100, 0, false)
  const BILLED := Invoice(1, QuotaInvoice, 100, Unpaid, Some(0), 0, 0, Unsettled)
  const CHECKED_OUT := Payment(100, 101, Some(101), AwaitingTransfer, [Item(0, 100)], 0, 10, None, None, None, false)
  const PAID_IN := Entry(1, PaymentIn, 50, 0, false)

  const HALF_PAYMENT := NewEntry(PaymentIn, 50, Direction.Signed, true, NoVolume, Auto, [])

  /** One invoice of 100, in a checkout whose receipt is under review. */
  const UNDER_REVIEW := Db([CHARGED], [BILLED.(status := Pending)], [], [CHECKED_OUT.(status := InReview)], 0)

  const TO_REVIEW := [
    Charge(1, 100, QuotaInvoice),
    StartCheckout(Checkout({0}, {1}, 10, {}, [1])),
    Receipt(0, true)]

  lemma {:induction false} ReviewReached()
    ensures Run(Empty(0), TO_REVIEW) == UNDER_REVIEW
  {
    hide Step;
    var billed := Db([CHARGED], [BILLED], [], [], 0);
    RunPush(Empty(0), [], TO_REVIEW[0]);
    RunPush(Empty(0), [TO_REVIEW[0]], TO_REVIEW[1]);
    RunPush(Empty(0), [TO_REVIEW[0], TO_REVIEW[1]], TO_REVIEW[2]);
    assert TO_REVIEW == [TO_REVIEW[0], TO_REVIEW[1]] + [TO_REVIEW[2]];
    assert [TO_REVIEW[0], TO_REVIEW[1]] == [TO_REVIEW[0]] + [TO_REVIEW[1]];
    assert [TO_REVIEW[0]] == [] + [TO_REVIEW[0]];
    assert Step(Empty(0), TO_REVIEW[0]) == billed by { FirstStep(); }
    assert Step(billed, TO_REVIEW[1]) == billed.(payments := [CHECKED_OUT]) by { SecondStep(billed); }
    ThirdStep();
  }

  lemma {:induction false} FirstStep()
    ensures Step(Empty(0), TO_REVIEW[0]) == Db([CHARGED], [BILLED], [], [], 0)
  {
    hide ChargeVolume;
    ChargeAlone();
  }

  lemma {:induction false} SecondStep(billed: Db)
    requires billed == Db([CHARGED], [BILLED], [], [], 0)
    ensures Step(billed, TO_REVIEW[1]) == billed.(payments := [CHECKED_OUT])
  {
    hide CreatePayment;
    CheckoutAlone(billed);
  }

  lemma {:induction false} ThirdStep()
    ensures Step(Db([CHARGED], [BILLED], [], [CHECKED_OUT], 0), TO_REVIEW[2]) == UNDER_REVIEW
  {
    assert CHECKED_OUT.Holds(0) by { assert CHECKED_OUT.items[0].invoice == 0; }
    assert CHECKED_OUT.(status := InReview).Holds(0) by { assert CHECKED_OUT.(status := InReview).items[0].invoice == 0; }
  }

  lemma {:induction false} ChargeAlone()
    ensures ChargeVolume(Empty(0), 1, 100, QuotaInvoice) == Db([CHARGED], [BILLED], [], [], 0)
  {
    var d := Db([CHARGED], [BILLED], [], [], 0);
    OneEntry(CHARGED);
    OneInvoice(BILLED);
    EnforceIdle(d, 1);
  }

  lemma {:induction false} OneEntry(e: Entry)
    requires e.admin == 1 && !e.voided
    ensures Sum([e], BalanceOf(1)) == e.Signed()
  {
    assert [e][..0] == [];
  }

  lemma {:induction false} OneInvoice(v: Invoice)
    requires v.admin == 1
    ensures Sum([v], OpenOf(1)) == v.Remaining()
    ensures Sum([v], UnpaidOf(1)) == if v.status.Unpaid? then v.Remaining() else 0
  {
    assert [v][..0] == [];
  }

  lemma {:induction false} CheckoutAlone(db: Db)
    requires db == Db([CHARGED], [BILLED], [], [], 0)
    ensures CreatePayment(db, Checkout({0}, {1}, 10, {}, [1])) == Ok(db.(payments := [CHECKED_OUT]))
  {
    var items := ItemsOf(db.invoices, {0}, 1);
    assert items == [Item(0, 100)] + ItemsOf(db.invoices, {0}, 0);
    assert items == [Item(0, 100)];
    assert Sum(items, ItemAmount()) == 100 by { assert items[..0] == []; }
    assert CancelFor(db.payments, InvoiceIds(items)) == [];
    assert FirstFree([], {}, 100, [1]) == Some(101);
    assert NewPayment(items, 101, 0, 10) == CHECKED_OUT;
    assert db.payments + [CHECKED_OUT] == [CHECKED_OUT];
    assert 0 in {0};
  }

  lemma {:induction false} NothingToSpendOn(d: Db)
    requires d == UNDER_REVIEW.(entries := [CHARGED, PAID_IN])
    ensures Allocate(d, 1, 50, ByManual, 1, []) == Ok(d)
  {
    assert Pouring.TargetsUpTo(d.invoices, 1, 1) == Pouring.TargetsUpTo(d.invoices, 1, 0);
    assert Pouring.Targets(d, 1) == [];
    assert SpendRows([], 1, ByManual, 50, true) == [];
    assert CancelFor(d.payments, InvoicesOf([])) == d.payments;
  }

  /** A payment of half the debt while the invoice is under review settles nothing. */
  lemma {:induction false} PaidDuringReview()
    ensures AddEntry(UNDER_REVIEW, 1, HALF_PAYMENT) == Ok(UNDER_REVIEW.(entries := [CHARGED, PAID_IN]))
  {
    hide Allocate;
    hide Enforce;
    var d := UNDER_REVIEW.(entries := [CHARGED, PAID_IN]);
    assert PushEntry(UNDER_REVIEW, 1, PaymentIn, 50) == d by { assert [CHARGED] + [PAID_IN] == [CHARGED, PAID_IN]; }
    OneInvoice(UNDER_REVIEW.invoices[0]);
    NothingToSpendOn(d);
    EnforceIdle(d, 1);
  }

  const TO_REJECTED := TO_REVIEW + [Book(1, HALF_PAYMENT)] + [Reject(0, true)]

  lemma {:induction false} TwoFurther(db: Db, events: seq<Event>, a: Event, b: Event)
    ensures Run(db, events + [a] + [b]) == Step(Step(Run(db, events), a), b)
  {
    hide Step;
    RunPush(db, events, a);
    RunPush(db, events + [a], b);
  }

  /** The rule fails right after a rejection in this run: 100 open and unpaid, 50 owed. */
  lemma {:induction false} RejectionBreaksDebtRule()
    ensures var d := Run(Empty(0), TO_REJECTED);
            OpenTotal(d, 1) == 100 && Debt(d, 1) == 50 && ReviewTotal(d, 1) == 0 && !WithinDebt(d, 1)
  {
    hide Run, AddEntry, WithinDebt;
    var before := UNDER_REVIEW.(entries := [CHARGED, PAID_IN]);
    ReviewReached();
    PaidDuringReview();
    TwoFurther(Empty(0), TO_REVIEW, Book(1, HALF_PAYMENT), Reject(0, true));
    assert Step(UNDER_REVIEW, Book(1, HALF_PAYMENT)) == before;
    RejectedAfterPayment(before);
  }

  /** So there a payment or decrease, whatever its amount, cannot be undone by voiding it. */
  lemma {:induction false} VoidCannotUndo(a: NewEntry)
    requires AutoReducing(a)
    ensures var db := Run(Empty(0), TO_REJECTED);
            && AddEntry(db, 1, a).Ok?
            && var r := Void(AddEntry(db, 1, a).value, |db.entries|, true);
               r.Ok? && r.value.invoices != db.invoices
  {
    hide AddEntry;
    hide Void;
    hide Run;
    hide Step;
    hide Inv;
    var db := Run(Empty(0), TO_REJECTED);
    EmptyOk(0);
    RunKeeps(Empty(0), TO_REJECTED);
    RejectionBreaksDebtRule();
    OpenSplits(db.invoices, 1);
    PayThenVoid(db, 1, a);
  }

  lemma {:induction false} RejectedAfterPayment(before: Db)
    requires before == UNDER_REVIEW.(entries := [CHARGED, PAID_IN])
    ensures var d := Step(before, Reject(0, true));
            OpenTotal(d, 1) == 100 && Debt(d, 1) == 50 && ReviewTotal(d, 1) == 0 && !WithinDebt(d, 1)
  {
    var d := RejectPayment(before, 0, true).value;
    var p := before.payments[0].(status := Rejected).WithLock();
    assert p.Holds(0) by { assert p.items[0].invoice == 0; }
    assert d.invoices == [BILLED];
    OneInvoice(BILLED);
    OpenSplits(d.invoices, 1);
    OneEntry(CHARGED);
    SumPush([CHARGED], PAID_IN, BalanceOf(1));
    assert [CHARGED] + [PAID_IN] == [CHARGED, PAID_IN];
  }

  // ---- a late near miss leaves an invoice under review for nothing ----

  const CANCELLED := CHECKED_OUT.(status := PaymentStatus.Cancelled, lock := None)
  const TO_LATE := [TO_REVIEW[0], TO_REVIEW[1], Cancel(0, true), NearMiss(0, 90)]

  /** Charged, checked out, cancelled, and then a deposit of 90 is matched to the cancelled checkout: the invoice is
      under review and no payment is. */
  lemma {:induction false} LateNearMissStrands()
    ensures var d := Run(Empty(0), TO_LATE);
            && |d.invoices| == 1 && d.invoices[0].status.Pending?
            && (forall k :: 0 <= k < |d.payments| ==> !d.payments[k].status.InReview?)
            && !AllReviewed(d)
  {
    hide Step;
    var billed := Db([CHARGED], [BILLED], [], [], 0);
    RunPush(Empty(0), [], TO_LATE[0]);
    RunPush(Empty(0), [TO_LATE[0]], TO_LATE[1]);
    RunPush(Empty(0), [TO_LATE[0], TO_LATE[1]], TO_LATE[2]);
    RunPush(Empty(0), [TO_LATE[0], TO_LATE[1], TO_LATE[2]], TO_LATE[3]);
    assert TO_LATE == [TO_LATE[0], TO_LATE[1], TO_LATE[2]] + [TO_LATE[3]];
    assert [TO_LATE[0], TO_LATE[1], TO_LATE[2]] == [TO_LATE[0], TO_LATE[1]] + [TO_LATE[2]];
    assert [TO_LATE[0], TO_LATE[1]] == [TO_LATE[0]] + [TO_LATE[1]];
    assert [TO_LATE[0]] == [] + [TO_LATE[0]];
    FirstStep();
    SecondStep(billed);
    LateSteps();
  }

  lemma {:induction false} LateSteps()
    ensures Step(Db([CHARGED], [BILLED], [], [CHECKED_OUT], 0), Cancel(0, true)) == Db([CHARGED], [BILLED], [], [CANCELLED], 0)
    ensures Step(Db([CHARGED], [BILLED], [], [CANCELLED], 0), NearMiss(0, 90))
         == Db([CHARGED], [BILLED.(status := Pending)], [], [CANCELLED.(mismatch := Some(90), late := true)], 0)
  {
    var p := CANCELLED.(mismatch := Some(90), late := true);
    assert p.Holds(0) by { assert p.items[0].invoice == 0; }
    assert Flagged(CANCELLED, 90) == p;
  }

  // ---- a hold of an approved payment lets it be booked twice ----

  const HELD_TWICE := [Approve(0, Some(101)), Ambiguous(0), Approve(0, None)]

  /** The books of one admin, one invoice and one payment for all of it. */
  ghost predicate OnePayment(db: Db) {
    && Inv(db) && |db.invoices| == 1 && db.invoices[0].admin == 1
    && |db.payments| == 1 && db.payments[0].items == [Item(0, 100)] && db.payments[0].amount == 100
    && db.payments[0].mismatch.None? && db.payments[0].unique == 101
  }

  /** Booking it lowers the balance by 100. */
  lemma {:induction false} BooksHundred(db: Db, deposit: Option<int>)
    requires OnePayment(db) && Approvable(db, 0) && (deposit.Some? ==> deposit.value == 101)
    ensures var d := Step(db, Approve(0, deposit));
            OnePayment(d) && ApprovedAt(d, 0) && Balance(d, 1) == Balance(db, 1) - 100
  {
    hide ApprovePayment;
    hide Balance;
    hide Inv;
    assert PaymentOk(db, db.payments[0]) by { ItsPayment(db); }
    BookedOne(db, deposit);
    ApprovePaymentKeeps(db, 0, deposit);
    StepApproval(db, Approve(0, deposit), 0);
    ApproveMoves(db, 0, deposit);
  }

  lemma {:induction false} ItsPayment(db: Db)
    requires OnePayment(db)
    ensures PaymentOk(db, db.payments[0])
  {
  }

  lemma {:induction false} BookedOne(db: Db, deposit: Option<int>)
    requires OnePayment(db) && Approvable(db, 0) && (deposit.Some? ==> deposit.value == 101)
    ensures ApprovePayment(db, 0, deposit).Ok?
    ensures var d := ApprovePayment(db, 0, deposit).value;
            && Balance(d, 1) == Balance(db, 1) - 100
            && |d.invoices| == 1 && d.invoices[0].admin == 1 && |d.payments| == 1
  {
    hide Enforce;
    hide Inv;
    hide SettlePayment;
    hide PaymentOk;
    hide Sum;
    hide BookUpTo;
    var items, db0 := [Item(0, 100)], SetPayment(db, 0, ApprovedPayment(db.payments[0], deposit));
    OneDue(db.invoices, items);
    OneName(db, items);
    OneBooking(db0, items);
    SettlePaymentKeeps(db, 0, deposit);
    var d1 := SettlePayment(db, 0, deposit);
    assert ItemsInRange(db, items);
    assert EnforceUpTo(d1, [1], 1) == Enforce(EnforceUpTo(d1, [1], 0), 1);
    EnforceExact(d1, 1);
    PushEntryBalance(db, 1, PaymentIn, 100, 1);
  }

  lemma {:induction false} OneDue(invoices: seq<Invoice>, items: seq<Item>)
    requires items == [Item(0, 100)] && |invoices| == 1 && invoices[0].admin == 1
    ensures Due(invoices, items, 1) == 100 && Payers(invoices, items) == {1}
  {
    assert items == [] + [Item(0, 100)];
    SumPush([], Item(0, 100), OwedBy(invoices, 1));
    assert items[0].invoice == 0;
  }

  lemma {:induction false} OneName(db: Db, items: seq<Item>)
    requires |db.payments| == 1 && db.payments[0].items == items && Payers(db.invoices, items) == {1}
    ensures Names(db, 0) == [1]
  {
    OrderTurn({1}, 1);
    OrderNone();
    assert {1} - {1} == {};
  }

  lemma {:induction false} OneBooking(db: Db, items: seq<Item>)
    requires Due(db.invoices, items, 1) == 100
    ensures BookUpTo(db, items, [1], 100, 1).db == PushEntry(db, 1, PaymentIn, 100)
  {
    assert [1][..0] == [];
    assert Kept(db.invoices, items, [1], 100, 0) == 100;
  }

  /** Charged 100, paid by one checkout and approved; a late hold, and the same payment is credited again: the admin
      has paid 100 once and is 100 in credit. */
  lemma {:induction false} HeldPaymentPaysTwice()
    ensures Payouts(Empty(0), TO_REVIEW + HELD_TWICE, 0) == 2
    ensures Balance(Run(Empty(0), TO_REVIEW + HELD_TWICE), 1) == -100
  {
    hide Step;
    hide Inv;
    hide OnePayment;
    var e0, e1, e2 := TO_REVIEW, TO_REVIEW + [HELD_TWICE[0]], TO_REVIEW + [HELD_TWICE[0]] + [HELD_TWICE[1]];
    assert TO_REVIEW + HELD_TWICE == e2 + [HELD_TWICE[2]];
    ReviewReached();
    EmptyOk(0);
    RunKeeps(Empty(0), e0);
    RunPush(Empty(0), e0, HELD_TWICE[0]);
    RunPush(Empty(0), e1, HELD_TWICE[1]);
    RunPush(Empty(0), e2, HELD_TWICE[2]);
    UnderReviewIsOne();
    assert Pays(Run(Empty(0), e0), HELD_TWICE[0], 0);
    BooksHundred(UNDER_REVIEW, Some(101));
    var d1 := Run(Empty(0), e1);
    HoldOne(d1);
    var d2 := Run(Empty(0), e2);
    BooksHundred(d2, None);
    assert Payouts(Empty(0), e0, 0) == 0 by { NoHoldYet(); }
    PayoutsPush(Empty(0), e0, HELD_TWICE[0], 0);
    PayoutsPush(Empty(0), e1, HELD_TWICE[1], 0);
    PayoutsPush(Empty(0), e2, HELD_TWICE[2], 0);
  }

  lemma {:induction false} NoHoldYet()
    ensures Payouts(Empty(0), TO_REVIEW, 0) == 0
  {
    hide Step;
    PayoutsPush(Empty(0), [], TO_REVIEW[0], 0);
    PayoutsPush(Empty(0), [TO_REVIEW[0]], TO_REVIEW[1], 0);
    PayoutsPush(Empty(0), [TO_REVIEW[0], TO_REVIEW[1]], TO_REVIEW[2], 0);
    assert TO_REVIEW == [TO_REVIEW[0], TO_REVIEW[1]] + [TO_REVIEW[2]];
    assert [TO_REVIEW[0], TO_REVIEW[1]] == [TO_REVIEW[0]] + [TO_REVIEW[1]];
    assert [TO_REVIEW[0]] == [] + [TO_REVIEW[0]];
  }

  lemma {:induction false} UnderReviewIsOne()
    requires Inv(UNDER_REVIEW)
    ensures OnePayment(UNDER_REVIEW) && Approvable(UNDER_REVIEW, 0) && Pays(UNDER_REVIEW, HELD_TWICE[0], 0)
    ensures Balance(UNDER_REVIEW, 1) == 100
  {
    hide SettlePayment;
    hide EnforceUpTo;
    hide BooksOk;
    OneEntry(CHARGED);
    assert PaymentOk(UNDER_REVIEW, UNDER_REVIEW.payments[0]);
  }

  lemma {:induction false} HoldOne(db: Db)
    requires OnePayment(db) && ApprovedAt(db, 0)
    ensures var d := Step(db, HELD_TWICE[1]);
            && OnePayment(d) && Approvable(d, 0) && Balance(d, 1) == Balance(db, 1)
            && !Pays(db, HELD_TWICE[1], 0) && Pays(d, HELD_TWICE[2], 0)
  {
    hide SettlePayment;
    hide EnforceUpTo;
    hide WithinDebt;
    HoldBooksAgain(db, 0, None);
    HoldAmbiguousKeeps(db, 0);
  }
}
