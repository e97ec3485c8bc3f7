// What the operations leave of the payments and of the marks of review.
module Moving {
  import opened Wrappers
  import opened Basics
  import opened Records
  import opened Sums
  import opened Books
  import opened Settling
  import opened Enforcement
  import opened Voiding
  import opened Ledger
  import opened Billing
  import opened Payments
  import opened Approving
  import opened PayAll
  import opened Runs

  /** What a payment is for and the near miss noted on it stay, one under review stays so, none is approved by this,
      and an approved one does not change at all. */
  ghost predicate Moved(p: Payment, q: Payment) {
    && q.items == p.items && q.amount == p.amount && q.unique == p.unique && q.mismatch == p.mismatch
    && (p.status.InReview? ==> q.status.InReview?)
    && (p.status.Approved? || q.status.Approved? ==> q == p)
  }

  ghost predicate AllMoved(a: seq<Payment>, b: seq<Payment>) {
    && |a| <= |b|
    && (forall k :: 0 <= k < |a| ==> Moved(a[k], b[k]))
    && (forall k :: |a| <= k < |b| ==> !b[k].status.Approved? && b[k].mismatch.None?)
  }

  /** No invoice comes under review. */
  ghost predicate NoMarks(a: seq<Invoice>, b: seq<Invoice>) {
    forall i :: 0 <= i < |b| && b[i].status.Pending? ==> i < |a| && a[i].status.Pending?
  }

  ghost predicate Moves(db: Db, d: Db) {
    AllMoved(db.payments, d.payments) && NoMarks(db.invoices, d.invoices)
  }

  lemma {:induction false} MovesTwice(a: Db, b: Db, c: Db)
    requires Moves(a, b) && Moves(b, c)
    ensures Moves(a, c)
  {
    forall k | 0 <= k < |c.payments|
      ensures if k < |a.payments| then Moved(a.payments[k], c.payments[k])
              else !c.payments[k].status.Approved? && c.payments[k].mismatch.None?
    {
      if k < |a.payments| {
        assert Moved(a.payments[k], b.payments[k]) && Moved(b.payments[k], c.payments[k]);
      } else if k < |b.payments| {
        assert Moved(b.payments[k], c.payments[k]);
      }
    }
  }

  lemma {:induction false} CancelMoves(payments: seq<Payment>, ids: seq<nat>)
    ensures AllMoved(payments, CancelFor(payments, ids))
  {
    forall k | 0 <= k < |payments| ensures Moved(payments[k], CancelFor(payments, ids)[k]) {}
  }

  lemma {:induction false} RowsMark(db: Db, rows: seq<Alloc>)
    requires InRange(db, rows)
    ensures NoMarks(db.invoices, AddAll(db, rows).invoices) && AddAll(db, rows).payments == db.payments
    decreases |rows|
  {
    if rows != [] {
      RowsMark(AddRow(db, rows[0]), rows[1..]);
    }
  }

  lemma {:induction false} ApplyMoves(db: Db, rows: seq<Alloc>)
    requires InRange(db, rows)
    ensures Moves(db, Apply(db, rows))
  {
    RowsMark(db, rows);
    CancelMoves(db.payments, InvoicesOf(rows));
  }

  lemma {:induction false} EnforceMoves(db: Db, n: Admin)
    ensures Moves(db, Enforce(db, n))
  {
    hide PlanRows;
    hide Apply;
    PourInRange(db, Pouring.Targets(db, n), Pouring.Sources(db, n), Excess(db, n), true);
    PlanInRange(db, n);
    ApplyMoves(db, PlanRows(db, n));
  }

  lemma {:induction false} PlanInRange(db: Db, n: Admin)
    ensures InRange(db, PlanRows(db, n)) && Enforce(db, n) == Apply(db, PlanRows(db, n))
  {
    PourInRange(db, Pouring.Targets(db, n), Pouring.Sources(db, n), Excess(db, n), true);
  }

  lemma {:induction false} EnforceUpToMoves(db: Db, names: seq<Admin>, k: nat)
    requires k <= |names|
    ensures Moves(db, EnforceUpTo(db, names, k))
  {
    hide Enforce;
    if k > 0 {
      EnforceUpToMoves(db, names, k - 1);
      EnforceMoves(EnforceUpTo(db, names, k - 1), names[k - 1]);
      MovesTwice(db, EnforceUpTo(db, names, k - 1), EnforceUpTo(db, names, k));
    }
  }

  lemma {:induction false} IssueMoves(db: Db, e: nat, kind: InvoiceKind)
    requires e < |db.entries|
    ensures Moves(db, IssueForEntry(db, e, kind))
  {
    hide Enforce;
    var x := db.entries[e];
    var d := PushInvoice(db, x.admin, kind, x.amount, Some(e));
    assert Moves(db, d);
    EnforceMoves(d, x.admin);
    MovesTwice(db, d, Enforce(d, x.admin));
  }

  lemma {:induction false} AllocateMoves(db: Db, n: Admin, amount: int, kind: AllocKind, e: nat, ids: seq<int>)
    ensures Allocate(db, n, amount, kind, e, ids).Ok? ==> Moves(db, Allocate(db, n, amount, kind, e, ids).value)
  {
    hide Apply;
    hide Pouring.Pour;
    if amount > 0 && ids == [] {
      PourInRange(db, Pouring.Targets(db, n), [Pouring.Source(e, kind, amount)], amount, true);
      ApplyMoves(db, SpendRows(Pouring.Targets(db, n), e, kind, amount, true));
    } else if amount > 0 && forall x :: x in ids ==> CanPick(db, n, x) {
      var ts := Picked(db, n, Distinct(ids));
      PourInRange(db, ts, [Pouring.Source(e, kind, amount)], amount, false);
      ApplyMoves(db, SpendRows(ts, e, kind, amount, false));
    }
  }

  lemma {:induction false} AddEntryMoves(db: Db, n: Admin, a: NewEntry)
    ensures AddEntry(db, n, a).Ok? ==> Moves(db, AddEntry(db, n, a).value)
  {
    hide Enforce;
    hide Allocate;
    hide IssueForEntry;
    if Booked(a).Ok? && AddEntry(db, n, a).Ok? {
      var d, e := PushEntry(db, n, a.kind, Booked(a).value), |db.entries|;
      assert Moves(db, d);
      if a.kind.ManualCharge? {
        IssueMoves(d, e, ChargeInvoice);
        MovesTwice(db, d, IssueForEntry(d, e, ChargeInvoice));
      } else {
        var x, ids := d.entries[e], if a.mode.Selected? then a.ids else [];
        EnforceMoves(d, x.admin);
        MovesTwice(db, d, Enforce(d, x.admin));
        AllocateMoves(d, x.admin, x.Size(), Pouring.KindOf(x), e, ids);
        var r := Allocate(d, x.admin, x.Size(), Pouring.KindOf(x), e, ids);
        if r.Ok? {
          EnforceMoves(r.value, x.admin);
          MovesTwice(db, d, r.value);
          MovesTwice(db, r.value, Enforce(r.value, x.admin));
        }
      }
    }
  }

  lemma {:induction false} VoidRowMoves(db: Db, i: nat)
    requires i < |db.invoices|
    ensures Moves(db, VoidInvoiceRow(db, i))
  {
    CancelMoves(db.payments, [i]);
  }

  lemma {:induction false} VoidLinkedMoves(db: Db, e: nat, k: nat)
    requires k <= |db.invoices|
    ensures Moves(db, VoidLinked(db, e, k))
  {
    hide VoidInvoiceRow;
    if k > 0 {
      VoidLinkedMoves(db, e, k - 1);
      var d := VoidLinked(db, e, k - 1);
      VoidRowMoves(d, k - 1);
      MovesTwice(db, d, VoidInvoiceRow(d, k - 1));
    }
  }

  lemma {:induction false} VoidMoves(db: Db, e: nat, why: bool)
    ensures Void(db, e, why).Ok? ==> Moves(db, Void(db, e, why).value)
  {
    hide Enforce;
    hide VoidLinked;
    if Void(db, e, why).Ok? {
      var d0 := VoidedEntry(db, e);
      VoidLinkedMoves(d0, e, |db.invoices|);
      var d1 := VoidLinked(d0, e, |db.invoices|);
      var d2 := Release(d1, FromEntry(e));
      assert Moves(db, d1);
      assert Moves(d1, d2);
      EnforceMoves(d2, db.entries[e].admin);
      MovesTwice(db, d1, d2);
      MovesTwice(db, d2, Enforce(d2, db.entries[e].admin));
    }
  }

  lemma {:induction false} VoidInvoiceMoves(db: Db, i: nat, why: bool)
    ensures VoidInvoice(db, i, why).Ok? ==> Moves(db, VoidInvoice(db, i, why).value)
  {
    hide Enforce;
    hide VoidInvoiceRow;
    if VoidInvoice(db, i, why).Ok? {
      VoidRowMoves(db, i);
      var d := VoidTogether(db, i);
      assert Moves(db, d);
      EnforceMoves(d, db.invoices[i].admin);
      MovesTwice(db, d, Enforce(d, db.invoices[i].admin));
    }
  }

  lemma {:induction false} CreateMoves(db: Db, c: Checkout)
    ensures CreatePayment(db, c).Ok? ==> Moves(db, CreatePayment(db, c).value)
  {
    CancelMoves(db.payments, InvoiceIds(ItemsOf(db.invoices, c.ids, |db.invoices|)));
  }

  lemma {:induction false} GatherMoves(db: Db, names: seq<Admin>, onPanel: set<Admin>, k: nat)
    requires k <= |names| && GatherUpTo(db, names, onPanel, k).Ok?
    ensures Moves(db, GatherUpTo(db, names, onPanel, k).value.db)
  {
    if k > 0 {
      GatherMoves(db, names, onPanel, k - 1);
      var g, h := GatherUpTo(db, names, onPanel, k - 1).value.db, GatherUpTo(db, names, onPanel, k).value.db;
      assert Moves(g, h);
      MovesTwice(db, g, h);
    }
  }

  lemma {:induction false} PayGroupMoves(db: Db, o: Order)
    ensures PayEverything(db, o).Created? ==> Moves(db, PayEverything(db, o).db)
  {
    hide CreatePayment;
    hide GatherUpTo;
    if PayEverything(db, o).Created? {
      var g := GatherUpTo(db, o.names, o.onPanel, |o.names|).value;
      GatherMoves(db, o.names, o.onPanel, |o.names|);
      CreateMoves(g.db, CheckoutFor(o, g.ids));
      MovesTwice(db, g.db, PayEverything(db, o).db);
    }
  }

  lemma {:induction false} PaidOutsideMoves(db: Db, i: nat)
    ensures SettleOutside(db, i).Ok? ==> Moves(db, SettleOutside(db, i).value)
  {
    if SettleOutside(db, i).Ok? {
      ApplyMoves(db, [Alloc(i, Outside, db.invoices[i].Remaining(), None, None, false, false)]);
    }
  }

  lemma {:induction false} OneMoves(db: Db, ev: Event)
    requires ev.Tick? || ev.SettleOldBalance? || ev.Cancel? || ev.Expire?
    ensures Moves(db, Step(db, ev))
  {
    var d := Step(db, ev);
    forall k | 0 <= k < |db.payments| ensures Moved(db.payments[k], d.payments[k]) {}
  }

  /** The events that neither put anything under review nor decide a payment. */
  predicate Calm(ev: Event) {
    !ev.Approve? && !ev.Reject? && !ev.Receipt? && !ev.NearMiss? && !ev.Ambiguous?
  }

  lemma {:induction false} StepMoves(db: Db, ev: Event)
    requires Calm(ev)
    ensures Moves(db, Step(db, ev))
  {
    hide AddEntry;
    hide Enforce;
    hide Void;
    hide VoidInvoice;
    hide IssueForEntry;
    hide CreatePayment;
    hide PayEverything;
    match ev
    case Charge(n, amount, kind) =>
      var d := PushEntry(db, n, EntryKind.QuotaCharge, amount);
      IssueMoves(d, |db.entries|, kind);
      MovesTwice(db, d, Step(db, ev));
    case Book(n, a) => AddEntryMoves(db, n, a);
    case VoidTheEntry(e, why) => VoidMoves(db, e, why);
    case VoidTheInvoice(i, why) => VoidInvoiceMoves(db, i, why);
    case PaidOutside(i) => PaidOutsideMoves(db, i);
    case StartCheckout(c) => CreateMoves(db, c);
    case PayGroup(o) => PayGroupMoves(db, o);
    case _ => OneMoves(db, ev);
  }

  /** Allocating a payment's items changes no payment. */
  lemma {:induction false} SettleLeavesPayments(db: Db, items: seq<Item>, entryOf: map<Admin, nat>, k: nat, j: nat)
    requires ItemsInRange(db, items) && j <= |items|
    ensures SettleUpTo(db, items, entryOf, k, j).payments == db.payments
  {
    if j > 0 {
      SettleLeavesPayments(db, items, entryOf, k, j - 1);
    }
  }

  /** An approval that books: the payment is approved, the others only move, and enforce marks nothing. */
  lemma {:induction false} ApproveMoves(db: Db, k: nat, deposit: Option<int>)
    requires Approvable(db, k) && ItemsInRange(db, db.payments[k].items)
    ensures var d := ApprovePayment(db, k, deposit).value;
            && AllMoved(db.payments[k := ApprovedPayment(db.payments[k], deposit)], d.payments)
            && NoMarks(SettlePayment(db, k, deposit).invoices, d.invoices)
  {
    hide EnforceUpTo;
    hide BookUpTo;
    hide SettleUpTo;
    var p, names := db.payments[k], Names(db, k);
    var d0, b := SetPayment(db, k, ApprovedPayment(p, deposit)), BookPayment(db, k, deposit);
    BookShape(d0, p.items, names, Covered(p, deposit), |names|);
    SettleLeavesPayments(b.db, p.items, b.entryOf, k, |p.items|);
    EnforceUpToMoves(SettlePayment(db, k, deposit), names, |names|);
  }
}
