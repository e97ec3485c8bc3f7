// Adding and releasing allocation rows, and what that does to the invoices.
module Settling {
  import opened Records
  import opened Sums
  import opened Books

  /** Invoice i as recomputed from its active allocations. */
  ghost function Refreshed(v: Invoice, allocs: seq<Alloc>, i: nat): Invoice {
    var paid := Settled(allocs, i);
    var status :=
      if v.status.Voided? then Voided
      else if paid >= v.amount && v.amount > 0 then Paid
      else if v.status.Paid? then Unpaid
      else v.status;
    v.(paid := paid, via := ViaOf(Kinds(allocs, i)), status := status)
  }

  /** One more allocation row; its invoice is recomputed. */
  ghost function AddRow(db: Db, a: Alloc): Db
    requires a.invoice < |db.invoices|
  {
    var allocs := db.allocs + [a];
    db.(allocs := allocs,
        invoices := db.invoices[a.invoice := Refreshed(db.invoices[a.invoice], allocs, a.invoice)])
  }

  predicate InRange(db: Db, rows: seq<Alloc>) {
    forall j :: 0 <= j < |rows| ==> rows[j].invoice < |db.invoices|
  }

  ghost function AddAll(db: Db, rows: seq<Alloc>): (d: Db)
    requires InRange(db, rows)
    ensures |d.invoices| == |db.invoices|
    decreases |rows|
  {
    if rows == [] then db else AddAll(AddRow(db, rows[0]), rows[1..])
  }

  /** A row that settles part of an open invoice of n, at most what is left of it. */
  ghost predicate FitsRow(db: Db, a: Alloc, n: Admin) {
    && AllocOk(db, a)
    && !a.released
    && db.invoices[a.invoice].admin == n
    && db.invoices[a.invoice].IsOpen()
    && a.amount <= db.invoices[a.invoice].Remaining()
  }

  /** Each row settles part of an unpaid invoice of n, at most what the rows before it left. */
  ghost predicate Fits(db: Db, rows: seq<Alloc>, n: Admin)
    decreases |rows|
  {
    rows == [] ||
    (FitsRow(db, rows[0], n) && db.invoices[rows[0].invoice].status.Unpaid? && Fits(AddRow(db, rows[0]), rows[1..], n))
  }

  function RowAmount(): Alloc -> int { (a: Alloc) => a.amount }

  function Total(rows: seq<Alloc>): int { Sum(rows, RowAmount()) }

  // ---- one row ----

  lemma {:induction false} AddRowSums(db: Db, a: Alloc, k: nat)
    requires a.invoice < |db.invoices| && !a.released
    ensures Settled(AddRow(db, a).allocs, k) == Settled(db.allocs, k) + if k == a.invoice then a.amount else 0
    ensures k != a.invoice ==> Kinds(AddRow(db, a).allocs, k) == Kinds(db.allocs, k)
  {
    SumPush(db.allocs, a, OnInvoice(k));
    KindsPush(db.allocs, a, k);
  }

  /** What a fitting row does to its own invoice. */
  lemma {:induction false} AddRowInvoice(db: Db, a: Alloc, n: Admin)
    requires BooksOk(db) && FitsRow(db, a, n)
    ensures var v, v' := db.invoices[a.invoice], AddRow(db, a).invoices[a.invoice];
            && v'.Remaining() == v.Remaining() - a.amount
            && v'.paid == v.paid + a.amount
            && v' == v.(paid := v'.paid, via := v'.via, status := v'.status)
            && v'.status == if v'.paid == v.amount then Paid else v.status
    ensures InvoiceOk(AddRow(db, a), a.invoice)
  {
    var i := a.invoice;
    AddRowSums(db, a, i);
    assert InvoiceOk(db, i);
  }

  lemma {:induction false} AddRowEffect(db: Db, a: Alloc, n: Admin)
    requires BooksOk(db) && FitsRow(db, a, n)
    ensures BooksOk(AddRow(db, a))
    ensures var v, v' := db.invoices[a.invoice], AddRow(db, a).invoices[a.invoice];
            && v'.Remaining() == v.Remaining() - a.amount
            && v'.paid == v.paid + a.amount
            && v' == v.(paid := v'.paid, via := v'.via, status := v'.status)
            && v'.status == if v'.paid == v.amount then Paid else v.status
  {
    AddRowInvoice(db, a, n);
    var d := AddRow(db, a);
    var i := a.invoice;
    forall k: nat | k < |d.invoices| ensures InvoiceOk(d, k) && LinkOk(d, k) {
      assert InvoiceOk(db, k) && LinkOk(db, k);
      if k != i {
        AddRowSums(db, a, k);
      }
      forall c | 0 <= c < k ensures d.invoices[c].entry == db.invoices[c].entry && d.invoices[c].created == db.invoices[c].created {}
    }
    forall j | 0 <= j < |d.allocs| ensures AllocOk(d, d.allocs[j]) {
      assert j < |db.allocs| ==> AllocOk(db, db.allocs[j]);
    }
    forall e | 0 <= e < |d.entries| ensures EntryOk(d, e) {
      assert EntryOk(db, e);
    }
  }

  lemma {:induction false} AddRowTotals(db: Db, a: Alloc, n: Admin, m: Admin)
    requires BooksOk(db) && FitsRow(db, a, n)
    ensures var d, x := AddRow(db, a), if m == n then a.amount else 0;
            && OpenTotal(d, m) == OpenTotal(db, m) - x
            && (db.invoices[a.invoice].status.Unpaid? ==>
                  && UnpaidTotal(d, m) == UnpaidTotal(db, m) - x
                  && ReviewTotal(d, m) == ReviewTotal(db, m))
  {
    AddRowEffect(db, a, n);
    var v' := AddRow(db, a).invoices[a.invoice];
    SumUpdate(db.invoices, a.invoice, v', OpenOf(m));
    SumUpdate(db.invoices, a.invoice, v', UnpaidOf(m));
    SumUpdate(db.invoices, a.invoice, v', ReviewOf(m));
  }

  // ---- many rows ----

  /** What a batch of fitting rows can do to one invoice. */
  predicate Grown(v: Invoice, v': Invoice) {
    && v' == v.(paid := v'.paid, via := v'.via, status := v'.status)
    && v.paid <= v'.paid
    && (v'.status == v.status || (v.status.Unpaid? && v'.status.Paid?))
    && (v.paid == v'.paid ==> v' == v)
  }

  /** What a batch of rows for n leaves as it was. */
  ghost predicate OnlyGrows(db: Db, d: Db, n: Admin) {
    && d.entries == db.entries && d.payments == db.payments && d.now == db.now
    && |d.invoices| == |db.invoices|
    && (forall i :: 0 <= i < |db.invoices| ==>
          && Grown(db.invoices[i], d.invoices[i])
          && (db.invoices[i].admin != n || !db.invoices[i].status.Unpaid? ==> d.invoices[i] == db.invoices[i]))
  }

  lemma {:induction false} AddRowGrows(db: Db, a: Alloc, n: Admin)
    requires BooksOk(db) && FitsRow(db, a, n) && db.invoices[a.invoice].status.Unpaid?
    ensures OnlyGrows(db, AddRow(db, a), n)
  {
    AddRowEffect(db, a, n);
    assert AllocOk(db, a);
  }

  lemma {:induction false} OnlyGrowsTwice(db: Db, d: Db, d': Db, n: Admin)
    requires OnlyGrows(db, d, n) && OnlyGrows(d, d', n)
    ensures OnlyGrows(db, d', n)
  {
    forall i | 0 <= i < |db.invoices|
      ensures Grown(db.invoices[i], d'.invoices[i])
      ensures db.invoices[i].admin != n || !db.invoices[i].status.Unpaid? ==> d'.invoices[i] == db.invoices[i]
    {
      assert Grown(db.invoices[i], d.invoices[i]) && Grown(d.invoices[i], d'.invoices[i]);
    }
  }

  lemma {:induction false} AddAllGrows(db: Db, rows: seq<Alloc>, n: Admin)
    requires BooksOk(db) && InRange(db, rows) && Fits(db, rows, n)
    ensures BooksOk(AddAll(db, rows)) && OnlyGrows(db, AddAll(db, rows), n)
    ensures AddAll(db, rows).allocs == db.allocs + rows
    decreases |rows|
  {
    hide EntryOk;
    hide Refreshed;
    hide BooksOk;
    if rows == [] {
      assert db.allocs + rows == db.allocs;
    } else {
      var db1 := AddRow(db, rows[0]);
      AddRowEffect(db, rows[0], n);
      AddRowGrows(db, rows[0], n);
      AddAllGrows(db1, rows[1..], n);
      assert AddAll(db, rows) == AddAll(db1, rows[1..]);
      OnlyGrowsTwice(db, db1, AddAll(db, rows), n);
      assert db.allocs + rows == (db.allocs + [rows[0]]) + rows[1..];
    }
  }

  /** Whatever the rows, they are added as they are, and nothing but invoices changes besides. */
  lemma {:induction false} AddAllStays(db: Db, rows: seq<Alloc>)
    requires InRange(db, rows)
    ensures var d := AddAll(db, rows);
            d.allocs == db.allocs + rows && d.entries == db.entries && d.payments == db.payments && d.now == db.now
    decreases |rows|
  {
    if rows == [] {
      assert db.allocs + rows == db.allocs;
    } else {
      AddAllStays(AddRow(db, rows[0]), rows[1..]);
      assert db.allocs + rows == (db.allocs + [rows[0]]) + rows[1..];
    }
  }

  /** Fitting rows take exactly their total off what the admin has unpaid. */
  lemma {:induction false} AddAllTotals(db: Db, rows: seq<Alloc>, n: Admin)
    requires BooksOk(db) && InRange(db, rows) && Fits(db, rows, n)
    ensures UnpaidTotal(AddAll(db, rows), n) == UnpaidTotal(db, n) - Total(rows)
    ensures ReviewTotal(AddAll(db, rows), n) == ReviewTotal(db, n)
    decreases |rows|
  {
    if rows != [] {
      AddRowEffect(db, rows[0], n);
      AddRowTotals(db, rows[0], n, n);
      AddAllTotals(AddRow(db, rows[0]), rows[1..], n);
      SumFront(rows, RowAmount());
    }
  }

  /** Rows of other invoices leave an invoice's paid amount alone; its own rows add up. */
  lemma {:induction false} AddAllPaid(db: Db, rows: seq<Alloc>, n: Admin, i: nat)
    requires BooksOk(db) && InRange(db, rows) && Fits(db, rows, n)
    requires i < |db.invoices|
    ensures AddAll(db, rows).invoices[i].paid == db.invoices[i].paid + Settled(rows, i)
  {
    AddAllGrows(db, rows, n);
    var d := AddAll(db, rows);
    assert InvoiceOk(db, i) && InvoiceOk(d, i);
    SumConcat(db.allocs, rows, OnInvoice(i));
  }
}
