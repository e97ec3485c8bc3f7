// Releasing allocation rows when their source or their invoice is voided.
module Voiding {
  import opened Wrappers
  import opened Records
  import opened Sums
  import opened Books
  import opened Settling
  import opened Enforcement

  datatype Which = FromEntry(entry: nat) | OfInvoice(invoice: nat)

  predicate Matches(a: Alloc, w: Which) {
    !a.released && match w case FromEntry(e) => a.entry == Some(e) case OfInvoice(i) => a.invoice == i
  }

  function ReleaseRow(a: Alloc, w: Which): Alloc {
    if Matches(a, w) then a.(released := true) else a
  }

  function ReleaseRows(allocs: seq<Alloc>, w: Which): seq<Alloc> {
    seq(|allocs|, j requires 0 <= j < |allocs| => ReleaseRow(allocs[j], w))
  }

  ghost function RefreshAll(invoices: seq<Invoice>, allocs: seq<Alloc>): seq<Invoice> {
    seq(|invoices|, i requires 0 <= i < |invoices| => Refreshed(invoices[i], allocs, i))
  }

  /** The matching rows no longer settle anything; every invoice is what its remaining rows say. */
  ghost function Release(db: Db, w: Which): Db {
    var allocs := ReleaseRows(db.allocs, w);
    db.(allocs := allocs, invoices := RefreshAll(db.invoices, allocs))
  }

  function VoidedEntry(db: Db, e: nat): Db
    requires e < |db.entries|
  {
    db.(entries := db.entries[e := db.entries[e].(voided := true)])
  }

  /** Invoice i is voided: its unfinished checkouts are cancelled and its money is free again. */
  ghost function VoidInvoiceRow(db: Db, i: nat): Db
    requires i < |db.invoices|
  {
    var invoices := db.invoices[i := db.invoices[i].(status := Voided)];
    Release(db.(invoices := invoices, payments := CancelFor(db.payments, [i])), OfInvoice(i))
  }

  /** Every unpaid invoice of charge e among the first k is voided. */
  ghost function VoidLinked(db: Db, e: nat, k: nat): (d: Db)
    requires k <= |db.invoices|
    ensures |d.invoices| == |db.invoices|
  {
    if k == 0 then db
    else
      var d := VoidLinked(db, e, k - 1);
      if d.invoices[k - 1].entry == Some(e) && d.invoices[k - 1].status.Unpaid? then VoidInvoiceRow(d, k - 1) else d
  }

  // ---- sums after a release ----

  lemma {:induction false} ReleaseSums(allocs: seq<Alloc>, w: Which, i: nat)
    requires forall j :: 0 <= j < |allocs| ==> allocs[j].amount > 0
    ensures 0 <= Settled(ReleaseRows(allocs, w), i) <= Settled(allocs, i)
    ensures (forall j :: 0 <= j < |allocs| && Matches(allocs[j], w) ==> allocs[j].invoice != i) ==>
              Settled(ReleaseRows(allocs, w), i) == Settled(allocs, i) && Kinds(ReleaseRows(allocs, w), i) == Kinds(allocs, i)
    ensures w == OfInvoice(i) ==> Settled(ReleaseRows(allocs, w), i) == 0 && Kinds(ReleaseRows(allocs, w), i) == {}
  {
    var after := ReleaseRows(allocs, w);
    SettledNonNegative(after, i);
    SumAtMost(after, OnInvoice(i), allocs, OnInvoice(i));
    if forall j :: 0 <= j < |allocs| && Matches(allocs[j], w) ==> allocs[j].invoice != i {
      SumEqual(after, OnInvoice(i), allocs, OnInvoice(i));
      KindsEqual(after, allocs, i);
    }
    if w == OfInvoice(i) {
      SumZero(after, OnInvoice(i));
      assert forall j :: 0 <= j < |after| ==> after[j].released || after[j].invoice != i;
    }
  }

  lemma {:induction false} KindsEqual(s: seq<Alloc>, t: seq<Alloc>, i: nat)
    requires |s| == |t|
    requires forall j :: 0 <= j < |s| ==> s[j] == t[j] || (s[j].invoice != i && t[j].invoice != i)
    ensures Kinds(s, i) == Kinds(t, i)
  {
    forall k | k in Kinds(s, i) ensures k in Kinds(t, i) {
      var j :| 0 <= j < |s| && !s[j].released && s[j].invoice == i && s[j].kind == k;
      assert t[j] == s[j];
    }
    forall k | k in Kinds(t, i) ensures k in Kinds(s, i) {
      var j :| 0 <= j < |t| && !t[j].released && t[j].invoice == i && t[j].kind == k;
      assert s[j] == t[j];
    }
  }

  /** A refreshed invoice whose active rows are within its amount is in order. */
  lemma {:induction false} RefreshOk(db: Db, v: Invoice, i: nat)
    requires i < |db.invoices| && db.invoices[i] == Refreshed(v, db.allocs, i)
    requires 0 <= Settled(db.allocs, i) <= v.amount && v.amount > 0
    requires v.status.Voided? ==> Settled(db.allocs, i) == 0
    requires v.created <= db.now && forall d :: 0 <= d < i ==> db.invoices[d].created <= v.created
    ensures InvoiceOk(db, i)
  {
  }

  // ---- voiding a payment or an adjustment ----

  /** Voiding an entry no invoice was issued for, and releasing its rows, keeps the books. */
  lemma {:induction false} ReleaseEntryKeeps(db: Db, e: nat)
    requires Inv(db) && e < |db.entries|
    requires forall i :: 0 <= i < |db.invoices| ==> db.invoices[i].entry != Some(e)
    ensures Inv(Release(VoidedEntry(db, e), FromEntry(e)))
  {
    var d := Release(VoidedEntry(db, e), FromEntry(e));
    forall j | 0 <= j < |db.allocs| ensures db.allocs[j].amount > 0 { assert AllocOk(db, db.allocs[j]); }
    forall i | 0 <= i < |d.invoices| ensures InvoiceOk(d, i) && LinkOk(d, i) {
      assert InvoiceOk(db, i) && LinkOk(db, i);
      ReleaseSums(db.allocs, FromEntry(e), i);
      RefreshOk(d, db.invoices[i], i);
    }
    forall j | 0 <= j < |d.allocs| ensures AllocOk(d, d.allocs[j]) { assert AllocOk(db, db.allocs[j]); }
    forall x | 0 <= x < |d.entries| ensures EntryOk(d, x) { assert EntryOk(db, x); }
    CancelKeeps(db, d);
  }

  lemma {:induction false} VoidedBalance(db: Db, e: nat, m: Admin)
    requires e < |db.entries| && !db.entries[e].voided
    ensures Balance(VoidedEntry(db, e), m)
         == Balance(db, m) - if db.entries[e].admin == m then db.entries[e].Signed() else 0
  {
    SumUpdate(db.entries, e, db.entries[e].(voided := true), BalanceOf(m));
  }

  // ---- voiding an invoice with its charge ----

  /** An unpaid invoice voided together with its charge, if it has one. */
  ghost function VoidTogether(db: Db, i: nat): Db
    requires i < |db.invoices|
  {
    var d := VoidInvoiceRow(db, i);
    if db.invoices[i].entry.Some? && db.invoices[i].entry.value < |db.entries| then VoidedEntry(d, db.invoices[i].entry.value) else d
  }

  ghost predicate Counted(db: Db) {
    && (forall i :: 0 <= i < |db.invoices| ==> InvoiceOk(db, i))
    && (forall j :: 0 <= j < |db.allocs| ==> db.allocs[j].amount > 0 && db.allocs[j].invoice < |db.invoices|)
  }

  lemma {:induction false} BooksCounted(db: Db)
    requires BooksOk(db)
    ensures Counted(db)
  {
    forall j | 0 <= j < |db.allocs| ensures db.allocs[j].amount > 0 && db.allocs[j].invoice < |db.invoices| {
      assert AllocOk(db, db.allocs[j]);
    }
  }

  /** Voiding one unpaid invoice leaves every invoice counted right. */
  lemma {:induction false} VoidInvoiceRowCounted(db: Db, i: nat)
    requires Counted(db) && i < |db.invoices|
    ensures Counted(VoidInvoiceRow(db, i))
  {
    VoidInvoiceRowShape(db, i);
    var d := VoidInvoiceRow(db, i);
    forall j | 0 <= j < |d.invoices| ensures InvoiceOk(d, j) {
      assert InvoiceOk(db, j);
      forall c | 0 <= c < j ensures d.invoices[c].created == db.invoices[c].created {}
    }
  }

  lemma {:induction false} VoidInvoiceRowShape(db: Db, i: nat)
    requires Counted(db) && i < |db.invoices|
    ensures var d := VoidInvoiceRow(db, i);
            && |d.invoices| == |db.invoices|
            && d.invoices[i] == db.invoices[i].(status := Voided, paid := 0, via := Unsettled)
            && (forall j :: 0 <= j < |db.invoices| && j != i ==> d.invoices[j] == db.invoices[j])
            && Settled(d.allocs, i) == 0 && Kinds(d.allocs, i) == {}
            && (forall j: nat :: j < |db.invoices| && j != i ==>
                  Settled(d.allocs, j) == Settled(db.allocs, j) && Kinds(d.allocs, j) == Kinds(db.allocs, j))
  {
    var d := VoidInvoiceRow(db, i);
    ReleaseSums(db.allocs, OfInvoice(i), i);
    forall j: nat | j < |db.invoices| && j != i
      ensures Settled(d.allocs, j) == Settled(db.allocs, j) && Kinds(d.allocs, j) == Kinds(db.allocs, j)
      ensures d.invoices[j] == db.invoices[j]
    {
      ReleaseSums(db.allocs, OfInvoice(i), j);
      assert InvoiceOk(db, j);
    }
  }

  /** What invoice i holds of entry e. */
  function HeldOf(i: nat, e: nat): Alloc -> int {
    (a: Alloc) => if !a.released && a.invoice == i && a.entry == Some(e) then a.amount else 0
  }

  /** What an entry has in use falls by what the voided invoice held of it: that is free again. */
  lemma {:induction false} VoidFrees(allocs: seq<Alloc>, i: nat, e: nat)
    ensures Used(ReleaseRows(allocs, OfInvoice(i)), e) == Used(allocs, e) - Sum(allocs, HeldOf(i, e))
  {
    SumSplit(allocs, OnEntry(e), ReleaseRows(allocs, OfInvoice(i)), OnEntry(e), HeldOf(i, e));
  }

  /** The invoice is voided and holds nothing; exactly its rows are released, so every entry has back what it had put
      in; its charge is voided with it; and everything else, the books' rules included, stays. */
  lemma {:induction false} VoidTogetherKeeps(db: Db, i: nat)
    requires Inv(db) && i < |db.invoices| && db.invoices[i].status.Unpaid?
    ensures Inv(VoidTogether(db, i))
    ensures var d := VoidTogether(db, i);
            && d.invoices == db.invoices[i := db.invoices[i].(status := Voided, paid := 0, via := Unsettled)]
            && |d.allocs| == |db.allocs|
            && (forall j :: 0 <= j < |d.allocs| ==>
                  d.allocs[j] == if db.allocs[j].invoice == i then db.allocs[j].(released := true) else db.allocs[j])
            && (forall e: nat :: Used(d.allocs, e) == Used(db.allocs, e) - Sum(db.allocs, HeldOf(i, e)))
            && (match db.invoices[i].entry
                case Some(e) => e < |db.entries| && d.entries == db.entries[e := db.entries[e].(voided := true)]
                case None => d.entries == db.entries)
  {
    hide InvoiceOk;
    hide LinkOk;
    hide Sum;
    VoidTogetherShape(db, i);
    var d := VoidTogether(db, i);
    forall e: nat ensures Used(d.allocs, e) == Used(db.allocs, e) - Sum(db.allocs, HeldOf(i, e)) { VoidFrees(db.allocs, i, e); }
    forall k | 0 <= k < |d.invoices| ensures InvoiceOk(d, k) && LinkOk(d, k) {
      VoidTogetherCounted(db, i, k);
      VoidTogetherLink(db, i, k);
    }
    forall j | 0 <= j < |d.allocs| ensures AllocOk(d, d.allocs[j]) { assert AllocOk(db, db.allocs[j]); }
    forall e | 0 <= e < |d.entries| ensures EntryOk(d, e) { assert EntryOk(db, e); }
    CancelKeeps(db, d);
  }

  lemma {:induction false} VoidTogetherShape(db: Db, i: nat)
    requires Inv(db) && i < |db.invoices| && db.invoices[i].status.Unpaid?
    ensures var d := VoidTogether(db, i);
            && d == db.(invoices := d.invoices, allocs := ReleaseRows(db.allocs, OfInvoice(i)), entries := d.entries,
                        payments := CancelFor(db.payments, [i]))
            && d.invoices == db.invoices[i := db.invoices[i].(status := Voided, paid := 0, via := Unsettled)]
            && (match db.invoices[i].entry
                case Some(e) => e < |db.entries| && db.entries[e].IsCharge() && d.entries == db.entries[e := db.entries[e].(voided := true)]
                case None => d.entries == db.entries)
  {
    hide Settled;
    hide Kinds;
    BooksCounted(db);
    VoidInvoiceRowShape(db, i);
    assert LinkOk(db, i);
  }

  lemma {:induction false} VoidTogetherCounted(db: Db, i: nat, k: nat)
    requires BooksOk(db) && i < |db.invoices| && k < |db.invoices|
    ensures k < |VoidTogether(db, i).invoices| && InvoiceOk(VoidTogether(db, i), k)
  {
    BooksCounted(db);
    VoidInvoiceRowCounted(db, i);
    assert InvoiceOk(VoidInvoiceRow(db, i), k);
  }

  lemma {:induction false} VoidTogetherLink(db: Db, i: nat, k: nat)
    requires BooksOk(db) && i < |db.invoices| && k < |db.invoices| && db.invoices[i].status.Unpaid?
    ensures k < |VoidTogether(db, i).invoices| && LinkOk(VoidTogether(db, i), k)
  {
    BooksCounted(db);
    VoidInvoiceRowShape(db, i);
    var d := VoidTogether(db, i);
    assert LinkOk(db, k) && LinkOk(db, i);
    assert k != i && db.invoices[k].entry.Some? ==> db.invoices[k].entry != db.invoices[i].entry;
    forall c | 0 <= c < k && d.invoices[k].entry.Some? ensures d.invoices[c].entry != d.invoices[k].entry {
      assert d.invoices[c].entry == db.invoices[c].entry;
    }
  }

  // ---- the loop over a charge's invoices finds the one it has ----

  lemma {:induction false} VoidLinkedNone(db: Db, e: nat, k: nat)
    requires k <= |db.invoices|
    requires forall i :: 0 <= i < k ==> db.invoices[i].entry != Some(e) || !db.invoices[i].status.Unpaid?
    ensures VoidLinked(db, e, k) == db
  {
    if k > 0 {
      VoidLinkedNone(db, e, k - 1);
    }
  }

  lemma {:induction false} VoidLinkedOne(db: Db, e: nat, k: nat, i: nat)
    requires Counted(db) && i < k <= |db.invoices|
    requires db.invoices[i].entry == Some(e) && db.invoices[i].status.Unpaid?
    requires forall c :: 0 <= c < |db.invoices| && c != i ==> db.invoices[c].entry != Some(e)
    ensures VoidLinked(db, e, k) == VoidInvoiceRow(db, i)
  {
    hide Counted;
    hide VoidInvoiceRow;
    if i == k - 1 {
      VoidLinkedNone(db, e, k - 1);
    } else {
      VoidLinkedOne(db, e, k - 1, i);
      VoidInvoiceRowShape(db, i);
    }
  }

  /** Releasing when no row matches changes nothing. */
  lemma {:induction false} ReleaseNone(db: Db, w: Which)
    requires BooksOk(db) && forall j :: 0 <= j < |db.allocs| ==> !Matches(db.allocs[j], w)
    ensures Release(db, w) == db
  {
    assert ReleaseRows(db.allocs, w) == db.allocs;
    forall i | 0 <= i < |db.invoices| ensures Refreshed(db.invoices[i], db.allocs, i) == db.invoices[i] {
      assert InvoiceOk(db, i);
    }
  }

  /** Voiding a charge voids exactly its unpaid invoice with it. */
  lemma {:induction false} VoidChargeShape(db: Db, e: nat, i: nat)
    requires Inv(db) && e < |db.entries| && i < |db.invoices|
    requires db.invoices[i].entry == Some(e) && db.invoices[i].status.Unpaid?
    ensures Release(VoidLinked(VoidedEntry(db, e), e, |db.invoices|), FromEntry(e)) == VoidTogether(db, i)
  {
    var d := VoidedEntry(db, e);
    BooksCounted(db);
    forall k | 0 <= k < |d.invoices| ensures InvoiceOk(d, k) { assert InvoiceOk(db, k); }
    forall c | 0 <= c < |db.invoices| && c != i ensures db.invoices[c].entry != Some(e) {
      assert LinkOk(db, i) && LinkOk(db, c);
    }
    VoidLinkedOne(d, e, |db.invoices|, i);
    assert VoidInvoiceRow(d, i) == VoidTogether(db, i);
    VoidTogetherKeeps(db, i);
    forall j | 0 <= j < |db.allocs| ensures !Matches(VoidTogether(db, i).allocs[j], FromEntry(e)) {
      assert AllocOk(VoidTogether(db, i), VoidTogether(db, i).allocs[j]);
    }
    ReleaseNone(VoidTogether(db, i), FromEntry(e));
  }
}
