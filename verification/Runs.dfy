// Whole runs: any mix of charges, entries, voids, settlements, checkouts, deposits,
// approvals and rejections, starting from empty books.
module Runs {
  import opened Wrappers
  import opened Basics
  import opened Records
  import opened Books
  import opened Enforcement
  import opened Voiding
  import opened Ledger
  import opened Billing
  import opened Payments
  import opened Approving
  import opened PayAll

  datatype Event =
    | Tick(elapsed: nat)
    | Charge(admin: Admin, amount: nat, kind: InvoiceKind)
    | Book(admin: Admin, what: NewEntry)
    | VoidTheEntry(entry: nat, reasonGiven: bool)
    | VoidTheInvoice(invoice: nat, reasonGiven: bool)
    | PaidOutside(invoice: nat)
    | SettleOldBalance(admin: Admin, onPanel: bool)
    | StartCheckout(checkout: Checkout)
    | PayGroup(order: Order)
    | Receipt(payment: nat, allowed: bool)
    | Cancel(payment: nat, allowed: bool)
    | Approve(payment: nat, deposit: Option<int>)
    | Reject(payment: nat, reasonGiven: bool)
    | Expire
    | NearMiss(payment: nat, received: int)
    | Ambiguous(payment: nat)

  /** A near miss or an ambiguous deposit is matched first and recorded later: it may find its payment decided. */
  ghost function Step(db: Db, ev: Event): Db {
    match ev
    case Tick(t) => db.(now := db.now + t)
    case Charge(n, amount, kind) => ChargeVolume(db, n, amount, kind)
    case Book(n, a) => Settle(db, AddEntry(db, n, a))
    case VoidTheEntry(e, why) => Settle(db, Void(db, e, why))
    case VoidTheInvoice(i, why) => Settle(db, VoidInvoice(db, i, why))
    case PaidOutside(i) => Settle(db, SettleOutside(db, i))
    case SettleOldBalance(n, onPanel) => Settle(db, IssueSettlement(db, n, onPanel))
    case StartCheckout(c) => Settle(db, CreatePayment(db, c))
    case PayGroup(o) =>
      if NoDup(o.names) && PayEverything(db, o).Created? then PayEverything(db, o).db else db
    case Receipt(k, allowed) => Settle(db, SubmitReceipt(db, k, allowed))
    case Cancel(k, allowed) => Settle(db, CancelPayment(db, k, allowed))
    case Approve(k, deposit) => Settle(db, ApprovePayment(db, k, deposit))
    case Reject(k, why) => Settle(db, RejectPayment(db, k, why))
    case Expire => ExpireStale(db)
    case NearMiss(k, amount) => Settle(db, FlagMismatch(db, k, amount))
    case Ambiguous(k) => Settle(db, HoldAmbiguous(db, k))
  }

  ghost function Run(db: Db, events: seq<Event>): Db {
    if events == [] then db else Step(Run(db, events[..|events| - 1]), events[|events| - 1])
  }

  // ---- every step keeps the invariant; every step but a rejection keeps the debt rule ----

  lemma {:induction false} StepKeeps(db: Db, ev: Event)
    requires Inv(db)
    ensures Inv(Step(db, ev))
    ensures !ev.Reject? ==> Keeps(db, Step(db, ev))
  {
    hide Inv;
    hide WithinDebt;
    if Step(db, ev) != db {
      match ev
      case Tick(t) => TickKeeps(db, t);
      case Charge(n, amount, kind) => ChargeKeeps(db, n, EntryKind.QuotaCharge, amount, kind);
      case Book(n, a) => AddEntryKeeps(db, n, a);
      case VoidTheEntry(e, why) => VoidKeeps(db, e, why);
      case VoidTheInvoice(i, why) => VoidInvoiceKeeps(db, i, why);
      case PaidOutside(i) => SettleOutsideKeeps(db, i);
      case SettleOldBalance(n, onPanel) => SettlementExact(db, n, onPanel);
      case StartCheckout(c) => CreatePaymentKeeps(db, c);
      case PayGroup(o) => PayAllKeeps(db, o);
      case Receipt(k, allowed) => SubmitReceiptKeeps(db, k, allowed);
      case Cancel(k, allowed) => CancelPaymentKeeps(db, k, allowed);
      case Approve(k, deposit) => ApprovePaymentKeeps(db, k, deposit);
      case Reject(k, why) => RejectPaymentKeeps(db, k, why, 0);
      case Expire => ExpireStaleKeeps(db);
      case NearMiss(k, amount) => FlagMismatchKeeps(db, k, amount);
      case Ambiguous(k) => HoldAmbiguousKeeps(db, k);
    }
  }

  lemma {:induction false} TickKeeps(db: Db, t: nat)
    requires Inv(db)
    ensures Keeps(db, db.(now := db.now + t))
  {
    BooksSame(db, db.(now := db.now + t));
    CancelKeeps(db, db.(now := db.now + t));
  }

  lemma {:induction false} RunKeeps(db: Db, events: seq<Event>)
    requires Inv(db)
    ensures Inv(Run(db, events))
  {
    hide Inv;
    hide Step;
    if events != [] {
      RunKeeps(db, events[..|events| - 1]);
      StepKeeps(Run(db, events[..|events| - 1]), events[|events| - 1]);
    }
  }

  lemma {:induction false} EmptyOk(now: int)
    ensures Inv(Empty(now)) && forall m :: WithinDebt(Empty(now), m)
  {
  }

  ghost predicate Reachable(db: Db) {
    exists now: int, events: seq<Event> :: db == Run(Empty(now), events)
  }

  lemma {:induction false} ReachableOk(db: Db)
    requires Reachable(db)
    ensures Inv(db)
  {
    var now, events :| db == Run(Empty(now), events);
    EmptyOk(now);
    RunKeeps(Empty(now), events);
  }

  // ---- what that means ----

  /** In every reachable state an invoice is exactly what its active allocations say: the paid amount is
      their sum, between zero and the amount; it is paid exactly when that is all of it and otherwise has
      something left; a voided one has no active allocation, and its charge is voided with it. */
  lemma {:induction false} ReachableInvoice(db: Db, i: nat)
    requires Reachable(db) && i < |db.invoices|
    ensures var v := db.invoices[i];
            && v.paid == Settled(db.allocs, i)
            && 0 <= v.paid <= v.amount
            && (!v.status.Voided? ==> (v.status.Paid? <==> v.paid == v.amount))
            && (v.IsOpen() ==> v.Remaining() > 0)
            && (v.status.Voided? ==> forall j :: 0 <= j < |db.allocs| && !db.allocs[j].released ==> db.allocs[j].invoice != i)
            && (v.entry.Some? ==> v.entry.value < |db.entries| && (db.entries[v.entry.value].voided <==> v.status.Voided?))
  {
    ReachableOk(db);
    assert InvoiceOk(db, i) && LinkOk(db, i);
    BooksCounted(db);
    SettledNonNegative(db.allocs, i);
  }

  /** In every reachable state no active allocation comes from a voided entry or from another admin's money. */
  lemma {:induction false} ReachableAllocation(db: Db, j: nat)
    requires Reachable(db) && j < |db.allocs| && !db.allocs[j].released && db.allocs[j].entry.Some?
    ensures db.allocs[j].entry.value < |db.entries| && db.allocs[j].invoice < |db.invoices|
    ensures var e := db.entries[db.allocs[j].entry.value];
            !e.voided && e.Reducing() && e.admin == db.invoices[db.allocs[j].invoice].admin
  {
    ReachableOk(db);
    assert AllocOk(db, db.allocs[j]);
  }

  /** In every reachable state a payment holds its unique amount exactly while it can be paid or reviewed,
      and no two payments hold the same amount. */
  lemma {:induction false} ReachableLocks(db: Db, j: nat, k: nat)
    requires Reachable(db) && j < |db.payments| && k < |db.payments|
    ensures db.payments[k].lock == if db.payments[k].status.AwaitingTransfer? || db.payments[k].status.InReview?
                                   then Some(db.payments[k].unique) else None
    ensures j != k && db.payments[j].lock.Some? ==> db.payments[j].lock != db.payments[k].lock
  {
    ReachableOk(db);
    assert PaymentOk(db, db.payments[k]);
  }

  /** In every reachable state an invoice is in at most one unfinished checkout. */
  lemma {:induction false} ReachableCheckouts(db: Db, i: nat, j: nat, k: nat)
    requires Reachable(db) && i < |db.invoices| && j < k < |db.payments|
    requires db.payments[j].status.AwaitingTransfer? && db.payments[k].status.AwaitingTransfer?
    ensures !(db.payments[j].Holds(i) && db.payments[k].Holds(i))
  {
    ReachableOk(db);
  }

  /** In every reachable state an invoice under review is an item of a payment under review, or of one that a
      near miss reached after it was decided. */
  lemma {:induction false} ReachableReview(db: Db, i: nat)
    requires Reachable(db) && i < |db.invoices| && db.invoices[i].status.Pending?
    ensures exists k :: 0 <= k < |db.payments| && db.payments[k].Covers(i)
  {
    ReachableOk(db);
    assert ReviewCovered(db, i);
  }

  /** In every run without a rejection, every admin's open invoices stay within its debt, apart from what
      is under review. */
  lemma {:induction false} DebtRule(now: int, events: seq<Event>, m: Admin)
    requires forall k :: 0 <= k < |events| ==> !events[k].Reject?
    ensures WithinDebt(Run(Empty(now), events), m)
  {
    hide Inv;
    hide Step;
    hide WithinDebt;
    EmptyOk(now);
    if events != [] {
      var before := events[..|events| - 1];
      DebtRule(now, before, m);
      RunKeeps(Empty(now), before);
      StepKeeps(Run(Empty(now), before), events[|events| - 1]);
    }
  }

  lemma {:induction false} RunPush(db: Db, events: seq<Event>, ev: Event)
    ensures Run(db, events + [ev]) == Step(Run(db, events), ev)
  {
    assert (events + [ev])[..|events|] == events;
  }
}
