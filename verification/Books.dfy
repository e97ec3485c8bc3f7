// Totals over the books and the invariant every operation keeps.
module Books {
  import opened Wrappers
  import opened Basics
  import opened Records
  import opened Sums

  // ---- totals ----

  function BalanceOf(n: Admin): Entry -> int {
    (e: Entry) => if !e.voided && e.admin == n then e.Signed() else 0
  }

  function OpenOf(n: Admin): Invoice -> int {
    (v: Invoice) => if v.admin == n then v.Remaining() else 0
  }

  function UnpaidOf(n: Admin): Invoice -> int {
    (v: Invoice) => if v.admin == n && v.status.Unpaid? then v.Remaining() else 0
  }

  function ReviewOf(n: Admin): Invoice -> int {
    (v: Invoice) => if v.admin == n && v.status.Pending? then v.Remaining() else 0
  }

  function OnInvoice(i: nat): Alloc -> int {
    (a: Alloc) => if !a.released && a.invoice == i then a.amount else 0
  }

  function OnEntry(e: nat): Alloc -> int {
    (a: Alloc) => if !a.released && a.entry == Some(e) then a.amount else 0
  }

  function OutsideOf(invoices: seq<Invoice>, n: Admin): Alloc -> int {
    (a: Alloc) =>
      if !a.released && a.kind.Outside? && a.invoice < |invoices|
         && invoices[a.invoice].admin == n && !invoices[a.invoice].status.Voided?
      then a.amount else 0
  }

  function Balance(db: Db, n: Admin): int { Sum(db.entries, BalanceOf(n)) }

  /** What the ledger says the admin owes. */
  function Debt(db: Db, n: Admin): int { Max(0, Balance(db, n)) }

  function OpenTotal(db: Db, n: Admin): int { Sum(db.invoices, OpenOf(n)) }

  function UnpaidTotal(db: Db, n: Admin): int { Sum(db.invoices, UnpaidOf(n)) }

  function ReviewTotal(db: Db, n: Admin): int { Sum(db.invoices, ReviewOf(n)) }

  function OutsideTotal(db: Db, n: Admin): int { Sum(db.allocs, OutsideOf(db.invoices, n)) }

  /** The active allocations on invoice i. */
  function Settled(allocs: seq<Alloc>, i: nat): int { Sum(allocs, OnInvoice(i)) }

  /** The active allocations of entry e. */
  function Used(allocs: seq<Alloc>, e: nat): int { Sum(allocs, OnEntry(e)) }

  function EntryCredit(db: Db, e: nat): int
    requires e < |db.entries|
  {
    Max(0, db.entries[e].Size() - Used(db.allocs, e))
  }

  function Kinds(allocs: seq<Alloc>, i: nat): set<AllocKind> {
    set j | 0 <= j < |allocs| && !allocs[j].released && allocs[j].invoice == i :: allocs[j].kind
  }

  ghost function ViaOf(kinds: set<AllocKind>): Via {
    if kinds == {} then Unsettled
    else
      var k :| k in kinds;
      if kinds == {k} then Via(k) else Mixed
  }

  // ---- the invariant ----

  ghost predicate EntryOk(db: Db, e: nat)
    requires e < |db.entries|
  {
    var x := db.entries[e];
    && (x.kind.PaymentIn? ==> x.amount > 0)
    && (x.IsCharge() ==> x.amount >= 0)
    && (x.kind.Adjustment? ==> x.amount != 0)
    && x.created <= db.now
    && (forall d :: 0 <= d < e ==> db.entries[d].created <= x.created)
  }

  /** An invoice's paid amount, status and settled-via are what its active allocations say. */
  ghost predicate InvoiceOk(db: Db, i: nat)
    requires i < |db.invoices|
  {
    var v := db.invoices[i];
    && v.amount > 0
    && v.paid == Settled(db.allocs, i)
    && 0 <= v.paid <= v.amount
    && v.via == ViaOf(Kinds(db.allocs, i))
    && (v.status.Voided? ==> v.paid == 0)
    && (!v.status.Voided? ==> (v.status.Paid? <==> v.paid == v.amount))
    && v.created <= db.now
    && (forall d :: 0 <= d < i ==> db.invoices[d].created <= v.created)
  }

  /** The charge of an invoice: one invoice per charge, voided together. */
  ghost predicate LinkOk(db: Db, i: nat)
    requires i < |db.invoices|
  {
    var v := db.invoices[i];
    && (v.entry.Some? ==>
          && v.entry.value < |db.entries|
          && db.entries[v.entry.value].IsCharge()
          && db.entries[v.entry.value].admin == v.admin
          && db.entries[v.entry.value].amount == v.amount
          && (db.entries[v.entry.value].voided <==> v.status.Voided?)
          && (forall d :: 0 <= d < i ==> db.invoices[d].entry != v.entry))
  }

  /** An active allocation comes from a live reducing entry of the invoice's own admin, if it has one. */
  ghost predicate AllocOk(db: Db, a: Alloc) {
    && a.invoice < |db.invoices|
    && a.amount > 0
    && (a.entry.Some? ==> a.entry.value < |db.entries|)
    && (!a.released && a.entry.Some? ==>
          && !db.entries[a.entry.value].voided
          && db.entries[a.entry.value].Reducing()
          && db.entries[a.entry.value].admin == db.invoices[a.invoice].admin)
  }

  ghost predicate BooksOk(db: Db) {
    && (forall e :: 0 <= e < |db.entries| ==> EntryOk(db, e))
    && (forall i :: 0 <= i < |db.invoices| ==> InvoiceOk(db, i) && LinkOk(db, i))
    && (forall j :: 0 <= j < |db.allocs| ==> AllocOk(db, db.allocs[j]))
  }

  function ItemAmount(): Item -> int { (it: Item) => it.amount }

  ghost predicate PaymentOk(db: Db, p: Payment) {
    && (forall k :: 0 <= k < |p.items| ==> p.items[k].invoice < |db.invoices| && p.items[k].amount > 0)
    && (forall k, l :: 0 <= k < l < |p.items| ==> p.items[k].invoice != p.items[l].invoice)
    && p.amount == Sum(p.items, ItemAmount())
    && p.lock == (if p.Active() then Some(p.unique) else None)
  }

  ghost predicate LocksDistinct(payments: seq<Payment>) {
    forall j, k :: 0 <= j < k < |payments| && payments[j].lock.Some? ==> payments[j].lock != payments[k].lock
  }

  /** No invoice is in two unfinished checkouts. */
  ghost predicate OneCheckout(payments: seq<Payment>) {
    forall j, k, i ::
      (0 <= j < k < |payments| && payments[j].status.AwaitingTransfer? && payments[k].status.AwaitingTransfer?
       && payments[j].Holds(i))
      ==> !payments[k].Holds(i)
  }

  /** An invoice under review is an item of a payment under review, or of one that a late near miss reached. */
  ghost predicate ReviewCovered(db: Db, i: nat)
    requires i < |db.invoices|
  {
    db.invoices[i].status.Pending? ==>
      exists k :: 0 <= k < |db.payments| && db.payments[k].Covers(i)
  }

  ghost predicate PaymentRules(db: Db) {
    && (forall k :: 0 <= k < |db.payments| ==> PaymentOk(db, db.payments[k]))
    && LocksDistinct(db.payments)
    && OneCheckout(db.payments)
  }

  ghost predicate AllCovered(db: Db) {
    forall i :: 0 <= i < |db.invoices| ==> ReviewCovered(db, i)
  }

  ghost predicate PaymentsOk(db: Db) {
    PaymentRules(db) && AllCovered(db)
  }

  ghost predicate Inv(db: Db) {
    BooksOk(db) && PaymentsOk(db)
  }

  /** The books as they are before anything happened. */
  function Empty(now: int): Db { Db([], [], [], [], now) }

  // ---- elementary facts ----

  lemma {:induction false} OpenSplits(invoices: seq<Invoice>, n: Admin)
    ensures Sum(invoices, OpenOf(n)) == Sum(invoices, UnpaidOf(n)) + Sum(invoices, ReviewOf(n))
    ensures Sum(invoices, UnpaidOf(n)) >= 0 && Sum(invoices, ReviewOf(n)) >= 0
  {
    if invoices != [] {
      OpenSplits(invoices[..|invoices| - 1], n);
    }
  }

  /** An admin's totals depend only on that admin's invoices. */
  lemma {:induction false} TotalsSame(invs: seq<Invoice>, invs': seq<Invoice>, n: Admin)
    requires |invs| == |invs'|
    requires forall i :: 0 <= i < |invs| ==> invs'[i].admin == invs[i].admin
    requires forall i :: 0 <= i < |invs| && invs[i].admin == n ==> invs'[i] == invs[i]
    ensures Sum(invs', OpenOf(n)) == Sum(invs, OpenOf(n))
    ensures Sum(invs', UnpaidOf(n)) == Sum(invs, UnpaidOf(n))
    ensures Sum(invs', ReviewOf(n)) == Sum(invs, ReviewOf(n))
  {
    SumEqual(invs', OpenOf(n), invs, OpenOf(n));
    SumEqual(invs', UnpaidOf(n), invs, UnpaidOf(n));
    SumEqual(invs', ReviewOf(n), invs, ReviewOf(n));
  }

  lemma {:induction false} KindsPush(allocs: seq<Alloc>, a: Alloc, i: nat)
    ensures Kinds(allocs + [a], i) == Kinds(allocs, i) + (if !a.released && a.invoice == i then {a.kind} else {})
  {
    var s := allocs + [a];
    forall k | k in Kinds(allocs, i) ensures k in Kinds(s, i) {
      var j :| 0 <= j < |allocs| && !allocs[j].released && allocs[j].invoice == i && allocs[j].kind == k;
      assert s[j] == allocs[j];
    }
    if !a.released && a.invoice == i {
      assert s[|allocs|] == a;
    }
  }

  /** Active allocations are never negative in total. */
  lemma {:induction false} SettledNonNegative(allocs: seq<Alloc>, i: nat)
    requires forall j :: 0 <= j < |allocs| ==> allocs[j].amount > 0
    ensures Settled(allocs, i) >= 0
    ensures Settled(allocs, i) == 0 ==> forall j :: 0 <= j < |allocs| && !allocs[j].released ==> allocs[j].invoice != i
  {
    forall j | 0 <= j < |allocs| ensures OnInvoice(i)(allocs[j]) >= 0 {}
    SumMember(allocs, OnInvoice(i));
    forall j | 0 <= j < |allocs| && !allocs[j].released && Settled(allocs, i) == 0
      ensures allocs[j].invoice != i
    {
      assert OnInvoice(i)(allocs[j]) <= 0;
    }
  }
}
