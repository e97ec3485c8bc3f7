// Settlement invoices, voided and outside-settled invoices.
module Billing {
  import opened Wrappers
  import opened Records
  import opened Sums
  import opened Books
  import opened Settling
  import opened Enforcement
  import opened Voiding
  import opened Ledger

  // ---- the old balance, and its settlement invoice ----

  /** The balance that neither an open invoice nor an outside settlement accounts for. */
  function OldBalance(db: Db, n: Admin): int {
    Balance(db, n) - OpenTotal(db, n) - OutsideTotal(db, n)
  }

  predicate HasOpenSettlement(db: Db, n: Admin) {
    exists i :: 0 <= i < |db.invoices| && db.invoices[i].admin == n && db.invoices[i].kind.Settlement? && db.invoices[i].IsOpen()
  }

  predicate Known(db: Db, n: Admin, onPanel: bool) {
    onPanel || exists e :: 0 <= e < |db.entries| && db.entries[e].admin == n
  }

  function IssueSettlement(db: Db, n: Admin, onPanel: bool): Result<Db, Refusal> {
    if !Known(db, n, onPanel) then Err(NotFound)
    else if OldBalance(db, n) <= 0 then Err(if HasOpenSettlement(db, n) then Conflict else Nothing)
    else Ok(PushInvoice(db, n, Settlement, OldBalance(db, n), None))
  }

  lemma {:induction false} OutsideNonNegative(db: Db, n: Admin)
    requires BooksOk(db)
    ensures OutsideTotal(db, n) >= 0
  {
    forall j | 0 <= j < |db.allocs| ensures OutsideOf(db.invoices, n)(db.allocs[j]) >= 0 {
      assert AllocOk(db, db.allocs[j]);
    }
    SumMember(db.allocs, OutsideOf(db.invoices, n));
  }

  /** A new invoice has no rows, so nobody's outside total moves. */
  lemma {:induction false} OutsidePush(db: Db, n: Admin, kind: InvoiceKind, amount: int, entry: Option<nat>, m: Admin)
    requires BooksOk(db)
    ensures OutsideTotal(PushInvoice(db, n, kind, amount, entry), m) == OutsideTotal(db, m)
  {
    var d := PushInvoice(db, n, kind, amount, entry);
    forall j | 0 <= j < |db.allocs|
      ensures OutsideOf(db.invoices, m)(db.allocs[j]) == OutsideOf(d.invoices, m)(db.allocs[j])
    {
      assert AllocOk(db, db.allocs[j]);
    }
    SumEqual(db.allocs, OutsideOf(db.invoices, m), db.allocs, OutsideOf(d.invoices, m));
  }

  lemma {:induction false} OldBalanceMeansKnown(entries: seq<Entry>, n: Admin)
    requires Sum(entries, BalanceOf(n)) != 0
    ensures exists e :: 0 <= e < |entries| && entries[e].admin == n
  {
    if forall e :: 0 <= e < |entries| ==> entries[e].admin != n {
      SumZero(entries, BalanceOf(n));
    }
  }

  /** A settlement invoice is exactly the old balance: the open invoices stay within the debt without
      any help from enforce, and no second settlement can be issued for the same money. */
  lemma {:induction false} SettlementExact(db: Db, n: Admin, onPanel: bool)
    requires Inv(db) && OldBalance(db, n) > 0
    ensures IssueSettlement(db, n, onPanel).Ok?
    ensures var d := IssueSettlement(db, n, onPanel).value;
            && Keeps(db, d)
            && OpenTotal(d, n) <= Debt(d, n)
            && OldBalance(d, n) == 0
            && IssueSettlement(d, n, onPanel).Err?
            && (forall m :: m != n ==> SameFor(db, d, m) && OldBalance(d, m) == OldBalance(db, m))
  {
    OpenSplits(db.invoices, n);
    OutsideNonNegative(db, n);
    OldBalanceMeansKnown(db.entries, n);
    var amount := OldBalance(db, n);
    var d := PushInvoice(db, n, Settlement, amount, None);
    PushInvoiceKeeps(db, n, Settlement, amount, None);
    PushInvoiceTotals(db, n, Settlement, amount, None, n);
    OutsidePush(db, n, Settlement, amount, None, n);
    forall m | m != n ensures SameFor(db, d, m) && OldBalance(d, m) == OldBalance(db, m) {
      PushInvoiceTotals(db, n, Settlement, amount, None, m);
      OutsidePush(db, n, Settlement, amount, None, m);
    }
    forall m | WithinDebt(db, m) ensures WithinDebt(d, m) {
      assert m != n ==> SameFor(db, d, m);
    }
  }

  // ---- outside settlement ----

  ghost function SettleOutside(db: Db, i: nat): Result<Db, Refusal> {
    if i >= |db.invoices| then Err(NotFound)
    else if !db.invoices[i].status.Unpaid? then Err(Conflict)
    else Ok(Apply(db, [Alloc(i, Outside, db.invoices[i].Remaining(), None, None, false, false)]))
  }

  /** The invoice is paid in full and the ledger is untouched. */
  lemma {:induction false} SettleOutsideKeeps(db: Db, i: nat)
    requires Inv(db) && SettleOutside(db, i).Ok?
    ensures var d := SettleOutside(db, i).value;
            && Keeps(db, d)
            && d.entries == db.entries
            && d.invoices[i].status.Paid?
            && OpenTotal(d, db.invoices[i].admin) == OpenTotal(db, db.invoices[i].admin) - db.invoices[i].Remaining()
  {
    var n := db.invoices[i].admin;
    var row := Alloc(i, Outside, db.invoices[i].Remaining(), None, None, false, false);
    var d := SettleOutside(db, i).value;
    assert InvoiceOk(db, i);
    assert Fits(db, [row], n) by { assert Fits(AddRow(db, row), [], n); }
    ApplyKeeps(db, [row], n);
    SumFront([row], RowAmount());
    AddRowEffect(db, row, n);
    assert AddAll(db, [row]) == AddRow(db, row) by { assert [row][1..] == []; }
    OpenSplits(db.invoices, n);
    OpenSplits(d.invoices, n);
    forall m | WithinDebt(db, m) ensures WithinDebt(d, m) {
      if m != n {
        OthersKeep(db, d, n, m);
      }
    }
  }

  // ---- voiding an invoice ----

  ghost function VoidInvoice(db: Db, i: nat, reasonGiven: bool): Result<Db, Refusal> {
    if i >= |db.invoices| then Err(NotFound)
    else if !db.invoices[i].status.Unpaid? then Err(Conflict)
    else if !reasonGiven then Err(Invalid)
    else Ok(Enforce(VoidTogether(db, i), db.invoices[i].admin))
  }

  lemma {:induction false} VoidInvoiceKeeps(db: Db, i: nat, reasonGiven: bool)
    requires Inv(db) && VoidInvoice(db, i, reasonGiven).Ok?
    ensures Keeps(db, VoidInvoice(db, i, reasonGiven).value)
  {
    hide Enforce;
    hide WithinDebt;
    hide VoidInvoiceRow;
    var d, n := VoidTogether(db, i), db.invoices[i].admin;
    VoidTogetherKeeps(db, i);
    BooksCounted(db);
    VoidInvoiceRowShape(db, i);
    assert LinkOk(db, i);
    forall m | m != n ensures SameFor(db, d, m) {
      TotalsSame(db.invoices, d.invoices, m);
      if db.invoices[i].entry.Some? {
        var e := db.invoices[i].entry.value;
        VoidedBalance(db, e, m);
        assert d.entries == VoidedEntry(db, e).entries;
      }
    }
    EnforceAfter(db, d, n);
  }
}
