// What settling, voiding and issuing an invoice does, said outright: how it is settled, which checkouts end with it, and
// what counts as settled outside.
module InvoiceRules {
  import opened Wrappers
  import opened Basics
  import opened Records
  import opened Sums
  import opened Books
  import opened Settling
  import opened Pouring
  import opened Enforcement
  import opened Voiding
  import opened Ledger
  import opened Billing
  import opened Payments
  import opened Runs
  import opened Spending
  import opened EntryRules

  // ---- how an invoice is settled ----

  predicate ActiveOn(a: Alloc, i: nat) {
    !a.released && a.invoice == i
  }

  lemma {:induction false} ViaMeans(kinds: set<AllocKind>)
    ensures ViaOf(kinds).Unsettled? <==> kinds == {}
    ensures forall k :: ViaOf(kinds) == Via.Via(k) <==> kinds == {k}
  {
    if kinds != {} {
      var k :| k in kinds;
      assert forall c :: kinds == {c} ==> c == k;
    }
  }

  /** In every reachable state an invoice names the kind of its active allocations if they agree, and says mixed exactly if
      two of them differ. */
  lemma {:induction false} ReachableVia(db: Db, i: nat)
    requires Reachable(db) && i < |db.invoices|
    ensures var via := db.invoices[i].via;
            && (via.Unsettled? <==> forall j :: 0 <= j < |db.allocs| ==> !ActiveOn(db.allocs[j], i))
            && (forall k :: via == Via.Via(k) <==>
                  && (exists j :: 0 <= j < |db.allocs| && ActiveOn(db.allocs[j], i))
                  && (forall j :: 0 <= j < |db.allocs| && ActiveOn(db.allocs[j], i) ==> db.allocs[j].kind == k))
            && (via.Mixed? <==> exists j, l ::
                  0 <= j < |db.allocs| && 0 <= l < |db.allocs| && ActiveOn(db.allocs[j], i) && ActiveOn(db.allocs[l], i)
                  && db.allocs[j].kind != db.allocs[l].kind)
  {
    hide Inv;
    ReachableOk(db);
    ViaIsKinds(db, i);
    var kinds := Kinds(db.allocs, i);
    ViaMeans(kinds);
    forall j | 0 <= j < |db.allocs| && ActiveOn(db.allocs[j], i) ensures db.allocs[j].kind in kinds {}
    forall k | k in kinds ensures exists j :: 0 <= j < |db.allocs| && ActiveOn(db.allocs[j], i) && db.allocs[j].kind == k {
      KindHasRow(db.allocs, i, k);
    }
    forall k ensures kinds == {k} <==> kinds != {} && forall c :: c in kinds ==> c == k {}
    if db.invoices[i].via.Mixed? {
      var k :| k in kinds;
      assert kinds != {k};
      var c :| c in kinds && c != k;
    }
  }

  lemma {:induction false} ViaIsKinds(db: Db, i: nat)
    requires Inv(db) && i < |db.invoices|
    ensures db.invoices[i].via == ViaOf(Kinds(db.allocs, i))
  {
    assert InvoiceOk(db, i);
  }

  lemma {:induction false} KindHasRow(allocs: seq<Alloc>, i: nat, k: AllocKind)
    requires k in Kinds(allocs, i)
    ensures exists j :: 0 <= j < |allocs| && ActiveOn(allocs[j], i) && allocs[j].kind == k
  {
    var j :| 0 <= j < |allocs| && !allocs[j].released && allocs[j].invoice == i && allocs[j].kind == k;
    assert ActiveOn(allocs[j], i);
  }

  // ---- which checkouts end ----

  /** Exactly the unfinished checkouts of invoices that have more paid now are cancelled. */
  ghost predicate CancelsPaid(db: Db, d: Db)
    requires |d.invoices| == |db.invoices|
  {
    && |d.payments| == |db.payments|
    && forall k :: 0 <= k < |db.payments| ==>
         d.payments[k] == if db.payments[k].status.AwaitingTransfer?
                             && (exists i :: 0 <= i < |db.invoices| && db.payments[k].Holds(i) && d.invoices[i].paid > db.invoices[i].paid)
                          then db.payments[k].(status := Cancelled, lock := None) else db.payments[k]
  }

  lemma {:induction false} RowsPay(db: Db, rows: seq<Alloc>, n: Admin, i: nat)
    requires Inv(db) && InRange(db, rows) && Fits(db, rows, n) && i < |db.invoices|
    requires forall j :: 0 <= j < |rows| ==> rows[j].amount > 0 && !rows[j].released
    ensures Apply(db, rows).invoices[i].paid > db.invoices[i].paid <==> i in InvoicesOf(rows)
  {
    hide Inv, Fits;
    SpendPaid(db, n, rows, i);
    forall j | 0 <= j < |rows| ensures OnInvoice(i)(rows[j]) >= 0 {}
    SumMember(rows, OnInvoice(i));
    if i in InvoicesOf(rows) {
      var j :| 0 <= j < |rows| && rows[j].invoice == i;
      assert OnInvoice(i)(rows[j]) > 0;
    } else {
      forall j | 0 <= j < |rows| ensures OnInvoice(i)(rows[j]) == 0 { assert InvoicesOf(rows)[j] == rows[j].invoice; }
      SumZero(rows, OnInvoice(i));
    }
  }

  lemma {:induction false} ApplyCancels(db: Db, rows: seq<Alloc>, n: Admin)
    requires Inv(db) && InRange(db, rows) && Fits(db, rows, n)
    requires forall j :: 0 <= j < |rows| ==> rows[j].amount > 0 && !rows[j].released
    ensures |Apply(db, rows).invoices| == |db.invoices| && CancelsPaid(db, Apply(db, rows))
  {
    hide Inv, Fits, AddAll;
    var d, ids := Apply(db, rows), InvoicesOf(rows);
    forall i: nat | i < |db.invoices| ensures d.invoices[i].paid > db.invoices[i].paid <==> i in ids { RowsPay(db, rows, n, i); }
    forall k | 0 <= k < |db.payments|
      ensures Touches(db.payments[k], ids)
         <==> exists i :: 0 <= i < |db.invoices| && db.payments[k].Holds(i) && d.invoices[i].paid > db.invoices[i].paid
    {
      if Touches(db.payments[k], ids) {
        var j :| 0 <= j < |ids| && db.payments[k].Holds(ids[j]);
        assert ids[j] in ids && ids[j] == rows[j].invoice < |db.invoices|;
      }
      if i :| 0 <= i < |db.invoices| && db.payments[k].Holds(i) && d.invoices[i].paid > db.invoices[i].paid {
        assert i in ids;
      }
    }
  }

  lemma {:induction false} PlannedNotOutside(db: Db, n: Admin, j: nat)
    requires j < |PlanRows(db, n)|
    ensures var a := PlanRows(db, n)[j]; !a.kind.Outside? && a.amount > 0 && !a.released
  {
    hide PlanRows, Sources, Enforce;
    var a := PlanRows(db, n)[j];
    EnforceRows(db, n);
    assert Drawn(a, Sources(db, n), true);
    if a.entry.Some? {
      var s :| 0 <= s < |Sources(db, n)| && Sources(db, n)[s].entry == a.entry.value && Sources(db, n)[s].kind == a.kind;
      SourcesExactly(db, n, a.entry.value);
    }
  }

  lemma {:induction false} PlanApplied(db: Db, n: Admin)
    requires InRange(db, PlanRows(db, n))
    ensures Enforce(db, n) == Apply(db, PlanRows(db, n))
  {
  }

  /** Enforce ends exactly the checkouts whose amount it has made wrong. */
  lemma {:induction false} EnforceCancels(db: Db, n: Admin)
    requires Inv(db)
    ensures |Enforce(db, n).invoices| == |db.invoices| && CancelsPaid(db, Enforce(db, n))
  {
    hide EntryOk, InvoiceOk, LinkOk, AllocOk, PaymentsOk, Apply, PlanRows, CancelsPaid;
    EnforceFits(db, n);
    PlanApplied(db, n);
    forall j | 0 <= j < |PlanRows(db, n)| ensures PlanRows(db, n)[j].amount > 0 && !PlanRows(db, n)[j].released {
      PlannedNotOutside(db, n, j);
    }
    ApplyCancels(db, PlanRows(db, n), n);
  }

  /** So does a payment or a decrease that is spent on invoices. */
  lemma {:induction false} AllocateCancels(db: Db, n: Admin, amount: int, kind: AllocKind, e: nat, ids: seq<int>)
    requires Inv(db) && Spendable(db, n, e) && amount > 0
    requires Allocate(db, n, amount, kind, e, ids).Ok?
    ensures var d := Allocate(db, n, amount, kind, e, ids).value; |d.invoices| == |db.invoices| && CancelsPaid(db, d)
  {
    hide Inv, Apply, CancelsPaid, Pour, Spendable;
    AllocateKeeps(db, n, amount, kind, e, ids);
    var ts, auto := SpentOn(db, n, ids), ids == [];
    SpendableTargets(db, n, ids);
    SpendKeeps(db, n, ts, e, kind, amount, auto);
    PourDrawn(ts, [Source(e, kind, amount)], amount, auto);
    var rows := SpendRows(ts, e, kind, amount, auto);
    forall j | 0 <= j < |rows| ensures rows[j].amount > 0 && !rows[j].released { assert Drawn(rows[j], [Source(e, kind, amount)], auto); }
    ApplyCancels(db, rows, n);
  }

  lemma {:induction false} SpendableTargets(db: Db, n: Admin, ids: seq<int>)
    requires forall x :: x in ids ==> CanPick(db, n, x)
    ensures TargetsOk(db, n, SpentOn(db, n, ids))
  {
    TargetsFit(db, n);
    if ids != [] {
      PickedOk(db, n, Distinct(ids));
    }
  }

  // ---- settled outside ----

  lemma {:induction false} OutsideWhen(db: Db, i: nat)
    ensures SettleOutside(db, i).Ok? <==> i < |db.invoices| && db.invoices[i].status.Unpaid?
    ensures SettleOutside(db, i).Err? ==> SettleOutside(db, i).error == if i >= |db.invoices| then NotFound else Conflict
  {
  }

  /** Rows on n's invoices count as settled outside only if they are of that kind. */
  lemma {:induction false} OutsideAfter(db: Db, rows: seq<Alloc>, n: Admin, m: Admin)
    requires Inv(db) && InRange(db, rows) && Fits(db, rows, n)
    ensures OutsideTotal(Apply(db, rows), m) == OutsideTotal(db, m) + Sum(rows, OutsideOf(db.invoices, m))
  {
    hide Fits, InvoiceOk, LinkOk, EntryOk, PaymentsOk;
    ApplyKeeps(db, rows, n);
    var d := Apply(db, rows);
    var f, g := OutsideOf(db.invoices, m), OutsideOf(d.invoices, m);
    forall i | 0 <= i < |db.invoices|
      ensures d.invoices[i].admin == db.invoices[i].admin && (d.invoices[i].status.Voided? <==> db.invoices[i].status.Voided?)
    {
      assert Grown(db.invoices[i], d.invoices[i]);
    }
    SumConcat(db.allocs, rows, g);
    SumEqual(db.allocs, f, db.allocs, g);
    SumEqual(rows, f, rows, g);
  }

  /** Settling outside writes one row, for what is left of the invoice; the ledger stays, the open invoices fall and what is
      settled outside rises by as much, so that the old balance does not move. Its checkouts end. */
  lemma {:induction false} OutsideExactly(db: Db, i: nat)
    requires Inv(db) && SettleOutside(db, i).Ok?
    ensures i < |db.invoices|
    ensures var d, n, rest := SettleOutside(db, i).value, db.invoices[i].admin, db.invoices[i].amount - db.invoices[i].paid;
            && rest > 0
            && d.entries == db.entries
            && d.allocs == db.allocs + [Alloc(i, Outside, rest, None, None, false, false)]
            && d.invoices[i].status.Paid?
            && OpenTotal(d, n) == OpenTotal(db, n) - rest
            && OutsideTotal(d, n) == OutsideTotal(db, n) + rest
            && OldBalance(d, n) == OldBalance(db, n)
            && (forall m :: m != n ==> SameFor(db, d, m) && OutsideTotal(d, m) == OutsideTotal(db, m))
            && |d.invoices| == |db.invoices| && CancelsPaid(db, d)
  {
    hide Fits, CancelsPaid, Apply;
    var v := db.invoices[i];
    assert InvoiceOk(db, i);
    var row := Alloc(i, Outside, v.Remaining(), None, None, false, false);
    var d := SettleOutside(db, i).value;
    OutsideRowFits(db, i);
    SettleOutsideKeeps(db, i);
    ApplyKeeps(db, [row], v.admin);
    ApplyCancels(db, [row], v.admin);
    forall m ensures OutsideTotal(d, m) == OutsideTotal(db, m) + if m == v.admin then row.amount else 0 {
      OutsideAfter(db, [row], v.admin, m);
      SumFront([row], OutsideOf(db.invoices, m));
    }
    forall m | m != v.admin ensures SameFor(db, d, m) { OthersKeep(db, d, v.admin, m); }
    SameLedger(db, d, v.admin);
  }

  lemma {:induction false} OutsideRowFits(db: Db, i: nat)
    requires Inv(db) && i < |db.invoices| && db.invoices[i].status.Unpaid?
    ensures var rows := [Alloc(i, Outside, db.invoices[i].Remaining(), None, None, false, false)];
            InRange(db, rows) && Fits(db, rows, db.invoices[i].admin)
  {
    var row := Alloc(i, Outside, db.invoices[i].Remaining(), None, None, false, false);
    assert InvoiceOk(db, i);
    assert Fits(AddRow(db, row), [row][1..], db.invoices[i].admin);
  }

  /** No other settling counts as that. */
  lemma {:induction false} EnforceOutside(db: Db, n: Admin, m: Admin)
    requires Inv(db)
    ensures OutsideTotal(Enforce(db, n), m) == OutsideTotal(db, m)
  {
    hide EntryOk, InvoiceOk, LinkOk, AllocOk, PaymentsOk, Fits, Apply, PlanRows;
    var rows := PlanRows(db, n);
    EnforceFits(db, n);
    PlanApplied(db, n);
    OutsideAfter(db, rows, n, m);
    forall j | 0 <= j < |rows| ensures OutsideOf(db.invoices, m)(rows[j]) == 0 { PlannedNotOutside(db, n, j); }
    SumZero(rows, OutsideOf(db.invoices, m));
  }

  // ---- the old balance ----

  /** A settlement invoice is issued exactly if someone known has an old balance; refused, the answer says whether one is
      still open. */
  lemma {:induction false} SettlementWhen(db: Db, n: Admin, onPanel: bool)
    ensures IssueSettlement(db, n, onPanel).Ok? <==>
              && Balance(db, n) > OpenTotal(db, n) + OutsideTotal(db, n)
              && (onPanel || exists e :: 0 <= e < |db.entries| && db.entries[e].admin == n)
    ensures IssueSettlement(db, n, onPanel).Err? ==>
              IssueSettlement(db, n, onPanel).error ==
              if !onPanel && (forall e :: 0 <= e < |db.entries| ==> db.entries[e].admin != n) then NotFound
              else if exists i :: 0 <= i < |db.invoices| && db.invoices[i].admin == n && db.invoices[i].kind.Settlement?
                                  && (db.invoices[i].status.Unpaid? || db.invoices[i].status.Pending?) then Conflict
              else Nothing
  {
    hide Balance, OpenTotal, OutsideTotal;
    if HasOpenSettlement(db, n) {
      var i :| 0 <= i < |db.invoices| && db.invoices[i].admin == n && db.invoices[i].kind.Settlement? && db.invoices[i].IsOpen();
      assert db.invoices[i].status.Unpaid? || db.invoices[i].status.Pending?;
    }
  }

  /** It is one more invoice, of nobody's charge, for exactly that; nothing else changes. */
  lemma {:induction false} SettlementIs(db: Db, n: Admin, onPanel: bool)
    requires IssueSettlement(db, n, onPanel).Ok?
    ensures var d := IssueSettlement(db, n, onPanel).value;
            && d == db.(invoices := d.invoices) && |d.invoices| == |db.invoices| + 1 && d.invoices[..|db.invoices|] == db.invoices
            && (var v := d.invoices[|db.invoices|];
                && v.admin == n && v.kind.Settlement? && v.status.Unpaid? && v.entry.None? && v.paid == 0 && v.created == db.now
                && v.amount == Balance(db, n) - OpenTotal(db, n) - OutsideTotal(db, n))
  {
    hide Balance, OpenTotal, OutsideTotal;
  }

  // ---- voiding an invoice ----

  lemma {:induction false} VoidInvoiceWhen(db: Db, i: nat, why: bool)
    ensures VoidInvoice(db, i, why).Ok? <==> i < |db.invoices| && db.invoices[i].status.Unpaid? && why
    ensures VoidInvoice(db, i, why).Err? ==>
              VoidInvoice(db, i, why).error == if i >= |db.invoices| then NotFound
                                               else if !db.invoices[i].status.Unpaid? then Conflict
                                               else Invalid
  {
    hide Enforce;
  }

  /** Voiding an invoice voids its charge with it, so the debt falls by its amount; its money is free and may at once settle
      other invoices of the same admin; its checkouts end. */
  lemma {:induction false} VoidInvoiceMoves(db: Db, i: nat, why: bool)
    requires Inv(db) && VoidInvoice(db, i, why).Ok?
    ensures i < |db.invoices|
    ensures var d, v := VoidInvoice(db, i, why).value, db.invoices[i];
            && d.invoices[i].status.Voided? && d.invoices[i].paid == 0
            && Balance(d, v.admin) == Balance(db, v.admin) - (if v.entry.Some? then v.amount else 0)
            && WithinDebt(d, v.admin)
            && (forall m :: m != v.admin ==> SameFor(db, d, m))
            && |d.payments| == |db.payments|
            && (forall k :: 0 <= k < |db.payments| && db.payments[k].status.AwaitingTransfer? && db.payments[k].Holds(i) ==>
                  d.payments[k] == db.payments[k].(status := Cancelled, lock := None))
  {
    hide Inv, Enforce, VoidInvoiceRow, WithinDebt, LinkOk, VoidTogether;
    var b, v := VoidTogether(db, i), db.invoices[i];
    VoidTogetherKeeps(db, i);
    VoidTogetherShape(db, i);
    EnforceExact(b, v.admin);
    EnforceWithin(b, v.admin);
    EnforceCancels(b, v.admin);
    OneTouched(db.payments, i);
    ChargeVoided(db, i);
    forall m ensures Balance(Enforce(b, v.admin), m) == Balance(b, m) { EnforceRows(b, v.admin); SameLedger(b, Enforce(b, v.admin), m); }
    forall m | m != v.admin ensures SameFor(db, Enforce(b, v.admin), m) {
      assert SameFor(b, Enforce(b, v.admin), m);
      TotalsSame(db.invoices, b.invoices, m);
    }
  }

  lemma {:induction false} ChargeVoided(db: Db, i: nat)
    requires Inv(db) && i < |db.invoices| && db.invoices[i].status.Unpaid?
    ensures var b, v := VoidTogether(db, i), db.invoices[i];
            forall m :: Balance(b, m) == Balance(db, m) - if m == v.admin && v.entry.Some? then v.amount else 0
  {
    hide VoidInvoiceRow, Balance;
    VoidTogetherShape(db, i);
    var b, v := VoidTogether(db, i), db.invoices[i];
    assert LinkOk(db, i);
    forall m ensures Balance(b, m) == Balance(db, m) - if m == v.admin && v.entry.Some? then v.amount else 0 {
      if v.entry.Some? {
        VoidedBalance(db, v.entry.value, m);
        SameLedger(VoidedEntry(db, v.entry.value), b, m);
      } else {
        SameLedger(db, b, m);
      }
    }
  }
}
