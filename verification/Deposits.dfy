// What an approval books: the deposit it is told of, else the near miss noted last, else the unique amount; from whom,
// in which order, and what is recorded as missing.
module Deposits {
  import opened Wrappers
  import opened Basics
  import opened Records
  import opened Sums
  import opened Books
  import opened Settling
  import opened Enforcement
  import opened Ledger
  import opened Payments
  import opened Approving
  import opened Runs
  import opened Moving
  import opened Spending
  import opened EntryUse

  /** What the payment asks of admin n. */
  function AskedOf(db: Db, k: nat, n: Admin): int
    requires k < |db.payments|
  {
    Due(db.invoices, db.payments[k].items, n)
  }

  /** The approval booked the deposit x, as far as the payment's amount needs it: each admin's debt falls by what of it reached the
      admin, at most what the payment asks of it and in name order; and what is missing is on record. */
  ghost predicate Receives(db: Db, d: Db, k: nat, x: int)
    requires k < |db.payments|
  {
    var amount := db.payments[k].amount;
    && |d.payments| == |db.payments|
    && d.payments[k] == db.payments[k].(status := Approved, lock := None, received := Some(x),
                                        shortfall := if x < amount then Some(amount - x) else None)
    && |db.entries| <= |d.entries| && d.entries[..|db.entries|] == db.entries
    && Sum(d.entries, EntryAmount()) - Sum(db.entries, EntryAmount()) == Max(0, Min(x, amount))
    && (forall e :: |db.entries| <= e < |d.entries| ==>
          d.entries[e].kind.PaymentIn? && d.entries[e].amount > 0 && d.entries[e].created == db.now && !d.entries[e].voided)
    && (forall e, f :: |db.entries| <= e < f < |d.entries| ==> d.entries[e].admin < d.entries[f].admin)
    && (forall n :: 0 <= Balance(db, n) - Balance(d, n) <= AskedOf(db, k, n))
    && (forall m, n :: m < n && Balance(d, n) < Balance(db, n) ==> Balance(db, m) - Balance(d, m) == AskedOf(db, k, m))
  }

  // ---- the entries ----

  lemma {:induction false} NewEntries(db: Db, items: seq<Item>, names: seq<Admin>, money: int, k: nat)
    requires k <= |names| && Increasing(names)
    ensures var b := BookUpTo(db, items, names, money, k).db;
            && |db.entries| <= |b.entries| && b.now == db.now
            && (forall e :: |db.entries| <= e < |b.entries| ==>
                  && b.entries[e].admin in names[..k] && b.entries[e].kind.PaymentIn?
                  && b.entries[e].amount > 0 && b.entries[e].created == db.now && !b.entries[e].voided)
            && (forall e, f :: |db.entries| <= e < f < |b.entries| ==> b.entries[e].admin < b.entries[f].admin)
  {
    hide Kept;
    if k > 0 {
      NewEntries(db, items, names, money, k - 1);
      assert names[..k] == names[..k - 1] + [names[k - 1]];
    }
  }

  lemma {:induction false} BalanceBooked(db: Db, items: seq<Item>, names: seq<Admin>, money: int, k: nat)
    requires k <= |names| && Increasing(names)
    ensures var b := BookUpTo(db, items, names, money, k).db;
            && (forall n :: n !in names[..k] ==> Balance(b, n) == Balance(db, n))
            && (forall i :: 0 <= i < k ==> Balance(b, names[i]) == Balance(db, names[i]) - Kept(db.invoices, items, names, money, i))
  {
    hide Balance, Kept, BookUpTo;
    if k == 0 {
      BookNone(db, items, names, money);
    } else {
      BalanceBooked(db, items, names, money, k - 1);
      BalanceStep(db, items, names, money, k - 1);
      assert names[..k] == names[..k - 1] + [names[k - 1]];
    }
  }

  lemma {:induction false} BookNone(db: Db, items: seq<Item>, names: seq<Admin>, money: int)
    ensures BookUpTo(db, items, names, money, 0).db == db
  {
  }

  lemma {:induction false} BalanceStep(db: Db, items: seq<Item>, names: seq<Admin>, money: int, k: nat)
    requires k < |names|
    ensures forall n ::
              Balance(BookUpTo(db, items, names, money, k + 1).db, n)
              == Balance(BookUpTo(db, items, names, money, k).db, n)
                 - if n == names[k] then Kept(db.invoices, items, names, money, k) else 0
  {
    hide Balance;
    var b, kept := BookUpTo(db, items, names, money, k).db, Kept(db.invoices, items, names, money, k);
    forall n ensures Balance(PushEntry(b, names[k], PaymentIn, kept), n) == Balance(b, n) - if n == names[k] then kept else 0 {
      PushEntryBalance(b, names[k], PaymentIn, kept, n);
    }
  }

  /** A later admin gets some of the money only when an earlier one got all that is asked of it. */
  lemma {:induction false} KeptInOrder(invoices: seq<Invoice>, items: seq<Item>, names: seq<Admin>, money: int, i: nat, j: nat)
    requires i < j < |names| && Kept(invoices, items, names, money, j) > 0
    requires forall l :: 0 <= l < |items| ==> items[l].amount > 0
    ensures Kept(invoices, items, names, money, i) == Due(invoices, items, names[i])
  {
    hide Due;
    var f := DueOf(invoices, items);
    forall n ensures Due(invoices, items, n) >= 0 { DueNonNegative(invoices, items, n); }
    DuePush(names, f, i);
    assert names[..j] == names[..i + 1] + names[i + 1..j];
    SumConcat(names[..i + 1], names[i + 1..j], f);
    SumMember(names[i + 1..j], f);
  }

  lemma {:induction false} NothingAsked(invoices: seq<Invoice>, items: seq<Item>, n: Admin)
    requires n !in Payers(invoices, items)
    ensures Due(invoices, items, n) == 0
  {
    forall j | 0 <= j < |items| ensures OwedBy(invoices, n)(items[j]) == 0 {
      assert items[j].invoice < |invoices| ==> invoices[items[j].invoice].admin in Payers(invoices, items);
    }
    SumZero(items, OwedBy(invoices, n));
  }

  lemma {:induction false} EnforceAllEntries(db: Db, names: seq<Admin>, j: nat)
    requires j <= |names|
    ensures EnforceUpTo(db, names, j).entries == db.entries
  {
    hide Enforce;
    if j > 0 {
      EnforceAllEntries(db, names, j - 1);
      EnforceRows(EnforceUpTo(db, names, j - 1), names[j - 1]);
    }
  }

  // ---- one approval ----

  /** The entries and the payment after an approval, as the bookings left them. */
  lemma {:induction false} ApprovedEntries(db: Db, k: nat, deposit: Option<int>)
    requires Inv(db) && Approvable(db, k)
    ensures ApprovePayment(db, k, deposit).Ok?
    ensures var d := ApprovePayment(db, k, deposit).value;
            && d.entries == BookPayment(db, k, deposit).db.entries
            && |d.payments| == |db.payments| && d.payments[k] == ApprovedPayment(db.payments[k], deposit)
  {
    hide Inv, EnforceUpTo, BookPayment, Names;
    SettlePaymentKeeps(db, k, deposit);
    var s, names := SettlePayment(db, k, deposit), Names(db, k);
    EnforceAllEntries(s, names, |names|);
    EnforceUpToPayments(s, names, |names|, k);
  }

  /** Each admin's debt falls by what reached it. */
  lemma {:induction false} SharesAre(db: Db, k: nat, deposit: Option<int>)
    requires Inv(db) && Approvable(db, k)
    ensures var p, b, names := db.payments[k], BookPayment(db, k, deposit).db, Names(db, k);
            && (forall n :: n !in names ==> Balance(b, n) == Balance(db, n) && AskedOf(db, k, n) == 0)
            && (forall i :: 0 <= i < |names| ==>
                  && Balance(b, names[i]) == Balance(db, names[i]) - Kept(db.invoices, p.items, names, Covered(p, deposit), i)
                  && 0 <= Kept(db.invoices, p.items, names, Covered(p, deposit), i) <= AskedOf(db, k, names[i]))
  {
    hide Inv, Balance, BookUpTo, Kept, Due;
    var p, names, money := db.payments[k], Names(db, k), Covered(db.payments[k], deposit);
    var d0 := SetPayment(db, k, ApprovedPayment(p, deposit));
    ApprovedAlone(db, k, deposit);
    BalanceBooked(d0, p.items, names, money, |names|);
    assert names[..|names|] == names;
    forall n ensures Balance(d0, n) == Balance(db, n) { SameLedger(db, d0, n); }
    forall n ensures Due(db.invoices, p.items, n) >= 0 { DueNonNegative(db.invoices, p.items, n); }
    forall n | n !in names ensures Due(db.invoices, p.items, n) == 0 { NothingAsked(db.invoices, p.items, n); }
    forall i | 0 <= i < |names| ensures 0 <= Kept(db.invoices, p.items, names, money, i) <= Due(db.invoices, p.items, names[i]) {
      KeptWithin(db.invoices, p.items, names, money, i);
    }
  }

  lemma {:induction false} SharesInOrder(db: Db, k: nat, deposit: Option<int>)
    requires Inv(db) && Approvable(db, k)
    ensures var b := BookPayment(db, k, deposit).db;
            && (forall n :: 0 <= Balance(db, n) - Balance(b, n) <= AskedOf(db, k, n))
            && (forall m, n :: m < n && Balance(b, n) < Balance(db, n) ==> Balance(db, m) - Balance(b, m) == AskedOf(db, k, m))
  {
    hide Inv, Balance, BookPayment, Kept, AskedOf, Names;
    var b, names := BookPayment(db, k, deposit).db, Names(db, k);
    SharesAre(db, k, deposit);
    forall n ensures 0 <= Balance(db, n) - Balance(b, n) <= AskedOf(db, k, n) {
      if n in names {
        var i :| 0 <= i < |names| && names[i] == n;
      }
    }
    forall m, n | m < n && Balance(b, n) < Balance(db, n) ensures Balance(db, m) - Balance(b, m) == AskedOf(db, k, m) {
      ShareBefore(db, k, deposit, m, n);
    }
  }

  lemma {:induction false} ShareBefore(db: Db, k: nat, deposit: Option<int>, m: Admin, n: Admin)
    requires Inv(db) && Approvable(db, k) && m < n
    requires Balance(BookPayment(db, k, deposit).db, n) < Balance(db, n)
    ensures Balance(db, m) - Balance(BookPayment(db, k, deposit).db, m) == AskedOf(db, k, m)
  {
    hide Inv, Balance, BookPayment, Kept, Due;
    var p, names := db.payments[k], Names(db, k);
    SharesAre(db, k, deposit);
    ApprovedAlone(db, k, deposit);
    if m in names {
      var i :| 0 <= i < |names| && names[i] == m;
      var j :| 0 <= j < |names| && names[j] == n;
      EarlierName(names, i, j);
      KeptInOrder(db.invoices, p.items, names, Covered(p, deposit), i, j);
    }
  }

  lemma {:induction false} EarlierName(names: seq<Admin>, i: nat, j: nat)
    requires Increasing(names) && i < |names| && j < |names| && names[i] < names[j]
    ensures i < j
  {
  }

  lemma {:induction false} KeptWithin(invoices: seq<Invoice>, items: seq<Item>, names: seq<Admin>, money: int, i: nat)
    requires i < |names| && Due(invoices, items, names[i]) >= 0
    ensures 0 <= Kept(invoices, items, names, money, i) <= Due(invoices, items, names[i])
  {
  }

  /** An approval books the deposit it is told of, whatever was noted before; without one, the near miss noted on the
      payment; and with neither, the unique amount. */
  lemma {:induction false} ApprovalBooks(db: Db, k: nat, deposit: Option<int>)
    requires Inv(db) && Approvable(db, k)
    ensures ApprovePayment(db, k, deposit).Ok?
    ensures var d, p := ApprovePayment(db, k, deposit).value, db.payments[k];
            && (deposit.Some? ==> Receives(db, d, k, deposit.value))
            && (deposit.None? && p.mismatch.Some? ==> Receives(db, d, k, p.mismatch.value))
            && (deposit.None? && p.mismatch.None? ==> Receives(db, d, k, p.unique))
  {
    hide Inv, BookPayment, EnforceUpTo, SettlePayment, Balance, Due, ApprovePayment;
    var p, names := db.payments[k], Names(db, k);
    ApprovedEntries(db, k, deposit);
    SharesInOrder(db, k, deposit);
    EntriesConserve(db, k, deposit);
    BookedEntries(db, k, deposit);
    forall n ensures Balance(ApprovePayment(db, k, deposit).value, n) == Balance(BookPayment(db, k, deposit).db, n) {
      SameLedger(BookPayment(db, k, deposit).db, ApprovePayment(db, k, deposit).value, n);
    }
  }

  lemma {:induction false} BookedEntries(db: Db, k: nat, deposit: Option<int>)
    requires k < |db.payments|
    ensures var b := BookPayment(db, k, deposit).db;
            && |db.entries| <= |b.entries| && b.entries[..|db.entries|] == db.entries
            && (forall e :: |db.entries| <= e < |b.entries| ==>
                  b.entries[e].kind.PaymentIn? && b.entries[e].amount > 0 && b.entries[e].created == db.now && !b.entries[e].voided)
            && (forall e, f :: |db.entries| <= e < f < |b.entries| ==> b.entries[e].admin < b.entries[f].admin)
  {
    hide BookUpTo;
    var p, names := db.payments[k], Names(db, k);
    var d0 := SetPayment(db, k, ApprovedPayment(p, deposit));
    BookShape(d0, p.items, names, Covered(p, deposit), |names|);
    NewEntries(d0, p.items, names, Covered(p, deposit), |names|);
  }

  // ---- the allocations ----

  /** A row of payment k for one of its invoices, with money of that admin's new entry if it got one. */
  ghost predicate PaidRow(db: Db, entries: seq<Entry>, k: nat, a: Alloc)
    requires k < |db.payments|
  {
    && a.kind.ByPayment? && a.payment == Some(k) && !a.auto && !a.released && a.amount > 0
    && a.invoice < |db.invoices| && db.payments[k].Holds(a.invoice)
    && match a.entry
       case Some(e) => |db.entries| <= e < |entries| && entries[e].admin == db.invoices[a.invoice].admin
       case None => forall e :: |db.entries| <= e < |entries| ==> entries[e].admin != db.invoices[a.invoice].admin
  }

  /** The rows written since: those of the payment, and those of enforce. */
  ghost predicate RowsOf(db: Db, d: Db, k: nat)
    requires k < |db.payments|
  {
    && |db.allocs| <= |d.allocs| && d.allocs[..|db.allocs|] == db.allocs
    && forall j :: |db.allocs| <= j < |d.allocs| ==>
         PaidRow(db, d.entries, k, d.allocs[j]) || (d.allocs[j].auto && d.allocs[j].payment.None? && !d.allocs[j].released)
  }

  lemma {:induction false} OneRow(db: Db, it: Item, entryOf: map<Admin, nat>, k: nat)
    requires it.invoice < |db.invoices|
    ensures var d, row := SettleItem(db, it, entryOf, k), ItemRow(db, it, entryOf, k);
            && |d.invoices| == |db.invoices| && (forall i :: 0 <= i < |db.invoices| ==> d.invoices[i].admin == db.invoices[i].admin)
            && (d.allocs == db.allocs || (row.amount > 0 && d.allocs == db.allocs + [row]))
  {
  }

  lemma {:induction false} SettleRows(db: Db, items: seq<Item>, entryOf: map<Admin, nat>, k: nat, j: nat)
    requires ItemsInRange(db, items) && j <= |items|
    ensures var d := SettleUpTo(db, items, entryOf, k, j);
            && |d.invoices| == |db.invoices| && (forall i :: 0 <= i < |db.invoices| ==> d.invoices[i].admin == db.invoices[i].admin)
            && |db.allocs| <= |d.allocs| && d.allocs[..|db.allocs|] == db.allocs
            && forall r :: |db.allocs| <= r < |d.allocs| ==> ItemRowOf(db, d.allocs[r], items, entryOf, k)
  {
    hide SettleItem, ItemRowOf;
    if j > 0 {
      SettleRows(db, items, entryOf, k, j - 1);
      var d, it := SettleUpTo(db, items, entryOf, k, j - 1), items[j - 1];
      OneRow(d, it, entryOf, k);
      RowIsOf(db, d, items, entryOf, k, j - 1);
    }
  }

  lemma {:induction false} RowIsOf(db: Db, d: Db, items: seq<Item>, entryOf: map<Admin, nat>, k: nat, l: nat)
    requires ItemsInRange(db, items) && l < |items| && |d.invoices| == |db.invoices|
    requires forall i :: 0 <= i < |db.invoices| ==> d.invoices[i].admin == db.invoices[i].admin
    ensures ItemRow(d, items[l], entryOf, k).amount > 0 ==> ItemRowOf(db, ItemRow(d, items[l], entryOf, k), items, entryOf, k)
  {
  }

  ghost predicate ItemRowOf(db: Db, a: Alloc, items: seq<Item>, entryOf: map<Admin, nat>, k: nat) {
    && a.kind.ByPayment? && a.payment == Some(k) && !a.auto && !a.released && a.amount > 0
    && a.invoice < |db.invoices| && (exists l :: 0 <= l < |items| && items[l].invoice == a.invoice)
    && a.entry == if db.invoices[a.invoice].admin in entryOf then Some(entryOf[db.invoices[a.invoice].admin]) else None
  }

  lemma {:induction false} PaidRowOf(db: Db, k: nat, deposit: Option<int>, a: Alloc)
    requires Inv(db) && Approvable(db, k)
    requires ItemRowOf(db, a, db.payments[k].items, BookPayment(db, k, deposit).entryOf, k)
    ensures PaidRow(db, BookPayment(db, k, deposit).db.entries, k, a)
  {
    hide Inv, BookUpTo, Kept;
    var p, names, money := db.payments[k], Names(db, k), Covered(db.payments[k], deposit);
    var d0 := SetPayment(db, k, ApprovedPayment(p, deposit));
    ApprovedAlone(db, k, deposit);
    BookUpToEffect(d0, p.items, names, money, |names|);
    BookedSo(d0, p.items, names, money, |names|);
    var b := BookPayment(db, k, deposit);
    if a.entry.None? {
      forall e: nat | |db.entries| <= e < |b.db.entries| ensures b.db.entries[e].admin != db.invoices[a.invoice].admin {
        assert Owned(b, p.items, names, money, e, |names|);
        var i: nat :| i < |names| && BookedFor(b, p.items, names, money, e, i);
      }
    }
  }

  lemma {:induction false} EnforceAllRows(db: Db, d: Db, k: nat, names: seq<Admin>, j: nat)
    requires k < |db.payments| && j <= |names| && RowsOf(db, d, k)
    ensures RowsOf(db, EnforceUpTo(d, names, j), k)
  {
    hide Enforce, PaidRow, PlanRows, Pouring.Sources;
    if j > 0 {
      EnforceAllRows(db, d, k, names, j - 1);
      var e, n := EnforceUpTo(d, names, j - 1), names[j - 1];
      EnforceRows(e, n);
      forall r | 0 <= r < |PlanRows(e, n)|
        ensures PlanRows(e, n)[r].auto && PlanRows(e, n)[r].payment.None? && !PlanRows(e, n)[r].released
      {
        assert Drawn(PlanRows(e, n)[r], Pouring.Sources(e, n), true);
      }
    }
  }

  /** The rows an approval writes are those of its own invoices, drawn on what it booked for their admins, and automatic
      ones. */
  lemma {:induction false} ApprovalWrites(db: Db, k: nat, deposit: Option<int>)
    requires Inv(db) && Approvable(db, k)
    ensures ApprovePayment(db, k, deposit).Ok? && RowsOf(db, ApprovePayment(db, k, deposit).value, k)
  {
    hide Inv, BookPayment, EnforceUpTo, Names, PaidRow, ItemRowOf, SettleUpTo;
    SettlePaymentKeeps(db, k, deposit);
    var s, b := SettlePayment(db, k, deposit), BookPayment(db, k, deposit);
    SettleRows(b.db, db.payments[k].items, b.entryOf, k, |db.payments[k].items|);
    forall r | |db.allocs| <= r < |s.allocs| ensures PaidRow(db, s.entries, k, s.allocs[r]) {
      SameInvoices(db, b.db, s.allocs[r], db.payments[k].items, b.entryOf, k);
      PaidRowOf(db, k, deposit, s.allocs[r]);
    }
    EnforceAllRows(db, s, k, Names(db, k), |Names(db, k)|);
  }

  lemma {:induction false} SameInvoices(db: Db, d: Db, a: Alloc, items: seq<Item>, entryOf: map<Admin, nat>, k: nat)
    requires d.invoices == db.invoices && ItemRowOf(d, a, items, entryOf, k)
    ensures ItemRowOf(db, a, items, entryOf, k)
  {
  }

  // ---- a near miss, and then an approval ----

  /** Once a near miss is accepted, the next approval without a deposit books that, and records the rest as missing. */
  lemma {:induction false} NearMissIsBooked(db: Db, k: nat, x: int)
    requires Inv(db) && FlagMismatch(db, k, x).Ok?
    ensures k < |db.payments|
    ensures var h := FlagMismatch(db, k, x).value;
            && k < |h.payments| && h.payments[k].amount == db.payments[k].amount && h.entries == db.entries
            && (Approvable(h, k) <==> !(db.payments[k].status.Approved? || db.payments[k].status.Cancelled?))
            && (Approvable(h, k) ==>
                  ApprovePayment(h, k, None).Ok? && Receives(h, ApprovePayment(h, k, None).value, k, x))
  {
    hide Inv, ApprovePayment, Receives, LockAvailable, MarkItems;
    FlagMismatchKeeps(db, k, x);
    var h := FlagMismatch(db, k, x).value;
    if Approvable(h, k) {
      ApprovalBooks(h, k, None);
    }
  }

  // ---- over runs ----

  /** The near miss of payment k that was accepted last. */
  ghost function LastNear(db: Db, events: seq<Event>, k: nat): Option<int> {
    if events == [] then None
    else
      var before, ev := events[..|events| - 1], events[|events| - 1];
      if ev.NearMiss? && ev.payment == k && FlagMismatch(Run(db, before), k, ev.received).Ok? then Some(ev.received)
      else LastNear(db, before, k)
  }

  /** Payment k after an event, as far as its note goes. */
  ghost predicate Noted(db: Db, d: Db, k: nat, note: Option<int>) {
    && |db.payments| <= |d.payments|
    && (k < |db.payments| ==>
          && d.payments[k].amount == db.payments[k].amount && d.payments[k].unique == db.payments[k].unique
          && d.payments[k].mismatch == if note.Some? then note else db.payments[k].mismatch)
    && (|db.payments| <= k < |d.payments| ==> d.payments[k].mismatch.None?)
  }

  /** A near miss of payment k that is accepted is noted; any other event leaves the note alone, and a new checkout starts
      without one. */
  lemma {:induction false} StepNotes(db: Db, ev: Event, k: nat)
    requires Inv(db)
    ensures Noted(db, Step(db, ev), k,
                  if ev.NearMiss? && ev.payment == k && FlagMismatch(db, k, ev.received).Ok? then Some(ev.received) else None)
  {
    hide Inv, ApprovePayment, FlagMismatch, HoldAmbiguous, SubmitReceipt, RejectPayment;
    match ev
    case Approve(j, deposit) => ApproveNotes(db, j, deposit, k);
    case NearMiss(j, amount) => FlagNotes(db, j, amount, k);
    case Ambiguous(j) => OneNotes(db, ev, k);
    case Receipt(j, allowed) => OneNotes(db, ev, k);
    case Reject(j, why) => OneNotes(db, ev, k);
    case _ =>
      StepMoves(db, ev);
      assert k < |db.payments| ==> Moved(db.payments[k], Step(db, ev).payments[k]);
  }

  lemma {:induction false} FlagNotes(db: Db, j: nat, amount: int, k: nat)
    ensures Noted(db, Step(db, NearMiss(j, amount)), k, if j == k && FlagMismatch(db, k, amount).Ok? then Some(amount) else None)
  {
    hide MarkItems, LockAvailable;
  }

  lemma {:induction false} OneNotes(db: Db, ev: Event, k: nat)
    requires ev.Ambiguous? || ev.Receipt? || ev.Reject?
    ensures Noted(db, Step(db, ev), k, None)
  {
    hide MarkItems, LockAvailable;
  }

  lemma {:induction false} ApproveNotes(db: Db, j: nat, deposit: Option<int>, k: nat)
    ensures Noted(db, Step(db, Approve(j, deposit)), k, None)
  {
    hide ItemsInRange, SettlePayment, EnforceUpTo;
    if Approvable(db, j) && ItemsInRange(db, db.payments[j].items) {
      ApproveMoves(db, j, deposit);
      var d := ApprovePayment(db, j, deposit).value;
      var a := db.payments[j := ApprovedPayment(db.payments[j], deposit)];
      assert k < |a| ==> Moved(a[k], d.payments[k]);
    }
  }

  lemma {:induction false} NoteIsLastNear(now: int, events: seq<Event>, k: nat)
    requires k < |Run(Empty(now), events).payments|
    ensures Run(Empty(now), events).payments[k].mismatch == LastNear(Empty(now), events, k)
  {
    hide Step, Inv, FlagMismatch;
    var before, ev := events[..|events| - 1], events[|events| - 1];
    var db := Run(Empty(now), before);
    EmptyOk(now);
    RunKeeps(Empty(now), before);
    StepNotes(db, ev, k);
    if k < |db.payments| {
      NoteIsLastNear(now, before, k);
    } else {
      NoneYet(now, before, k);
    }
  }

  /** No near miss reaches a payment that does not exist yet. */
  lemma {:induction false} NoneYet(now: int, events: seq<Event>, k: nat)
    requires k >= |Run(Empty(now), events).payments|
    ensures LastNear(Empty(now), events, k) == None
    ensures forall x :: !FlagMismatch(Run(Empty(now), events), k, x).Ok?
  {
    hide Step, Inv;
    if events != [] {
      var before, ev := events[..|events| - 1], events[|events| - 1];
      EmptyOk(now);
      RunKeeps(Empty(now), before);
      StepNotes(Run(Empty(now), before), ev, k);
      NoneYet(now, before, k);
    }
  }

  /** Over every run: an approval without a deposit books the near miss of this payment that was accepted last, whatever
      happened since, or the unique amount if there was none. */
  lemma {:induction false} LastNearIsBooked(now: int, events: seq<Event>, k: nat)
    requires Approvable(Run(Empty(now), events), k)
    ensures var db, near := Run(Empty(now), events), LastNear(Empty(now), events, k);
            && ApprovePayment(db, k, None).Ok?
            && Receives(db, ApprovePayment(db, k, None).value, k, match near case Some(x) => x case None => db.payments[k].unique)
  {
    hide Inv, Receives, ApprovePayment, Run, LastNear;
    EmptyOk(now);
    RunKeeps(Empty(now), events);
    NoteIsLastNear(now, events, k);
    ApprovalBooks(Run(Empty(now), events), k, None);
  }
}
