// Booking a payment or a decrease, oldest invoices first, and then voiding it.
module RoundTrip {
  import opened Wrappers
  import opened Basics
  import opened Records
  import opened Sums
  import opened Books
  import opened Settling
  import opened Pouring
  import opened Enforcement
  import opened Voiding
  import opened Ledger

  /** An accepted payment or debt decrease that settles oldest first. */
  ghost predicate AutoReducing(a: NewEntry) {
    && Booked(a).Ok?
    && a.mode.Auto?
    && (a.kind.PaymentIn? || (a.kind.Adjustment? && Booked(a).value < 0))
  }

  /** Every row that spends an entry, and nothing else, is attributed to that entry. */
  lemma {:induction false} SpentFromEntry(ts: seq<Target>, e: nat, kind: AllocKind, amount: int, auto: bool)
    ensures forall j :: 0 <= j < |SpendRows(ts, e, kind, amount, auto)| ==>
              SpendRows(ts, e, kind, amount, auto)[j].entry == Some(e)
    decreases |ts|, Max(0, amount)
  {
    if amount > 0 && ts != [] {
      if ts[0].rem <= 0 {
        SpentFromEntry(ts[1..], e, kind, amount, auto);
        assert SpendRows(ts, e, kind, amount, auto) == SpendRows(ts[1..], e, kind, amount, auto);
      } else {
        var take := Min(amount, ts[0].rem);
        var ts' := [ts[0].(rem := ts[0].rem - take)] + ts[1..];
        SpentFromEntry(ts', e, kind, amount - take, auto);
        assert [Source(e, kind, amount - take)] + [Source(e, kind, amount)][1..] == [Source(e, kind, amount - take)];
        assert SpendRows(ts, e, kind, amount, auto)
            == [NewRow(ts[0].id, take, kind, Some(e), auto)] + SpendRows(ts', e, kind, amount - take, auto);
      }
    }
  }

  /** The books once the entry is written and spent, before enforce looks at them. */
  ghost function Spent(db: Db, n: Admin, a: NewEntry): Db
    requires AutoReducing(a)
  {
    var d, e := PushEntry(db, n, a.kind, Booked(a).value), |db.entries|;
    PourInRange(d, Targets(d, n), [Source(e, KindOf(d.entries[e]), d.entries[e].Size())], d.entries[e].Size(), true);
    Apply(d, SpendRows(Targets(d, n), e, KindOf(d.entries[e]), d.entries[e].Size(), true))
  }

  lemma {:induction false} SpentShape(db: Db, n: Admin, a: NewEntry)
    requires Inv(db) && AutoReducing(a)
    ensures AddEntry(db, n, a) == Ok(Enforce(Spent(db, n, a), n))
    ensures var d, e, x := Spent(db, n, a), |db.entries|, Entry(n, a.kind, Booked(a).value, db.now, false);
            && Inv(d) && d.entries == db.entries + [x] && x.Reducing() && x.Size() > 0 && x.Signed() == -x.Size()
            && OnlySettles(PushEntry(db, n, a.kind, Booked(a).value), d, n)
            && (forall j :: 0 <= j < |d.allocs| ==>
                  if j < |db.allocs| then d.allocs[j] == db.allocs[j] && d.allocs[j].entry != Some(e)
                  else d.allocs[j].entry == Some(e))
            && |db.allocs| <= |d.allocs|
            && UnpaidTotal(d, n) == UnpaidTotal(db, n) - Min(x.Size(), UnpaidTotal(db, n))
            && ReviewTotal(d, n) == ReviewTotal(db, n)
            && Balance(d, n) == Balance(db, n) - x.Size()
  {
    hide Enforce;
    hide SpendRows;
    hide Sum;
    hide TargetsUpTo;
    var amount := Booked(a).value;
    var d0, e := PushEntry(db, n, a.kind, amount), |db.entries|;
    var x := d0.entries[e];
    PushEntryKeeps(db, n, a.kind, amount);
    PushEntryBalance(db, n, a.kind, amount, n);
    var ts, kind := Targets(d0, n), KindOf(x);
    TargetsFit(d0, n);
    SpendKeeps(d0, n, ts, e, kind, x.Size(), true);
    SpentFromEntry(ts, e, kind, x.Size(), true);
    ApplyKeeps(d0, SpendRows(ts, e, kind, x.Size(), true), n);
    forall j | 0 <= j < |db.allocs| ensures db.allocs[j].entry != Some(e) { assert AllocOk(db, db.allocs[j]); }
  }

  /** Enforce has nothing to add after a payment, unless it had something to add before. */
  lemma {:induction false} EnforceAddsNothing(db: Db, n: Admin, a: NewEntry)
    requires Inv(db) && AutoReducing(a)
    requires OpenTotal(db, n) <= Debt(db, n) || UnpaidTotal(db, n) == 0
    ensures Enforce(Spent(db, n, a), n) == Spent(db, n, a)
  {
    SpentShape(db, n, a);
    OpenSplits(db.invoices, n);
    OpenSplits(Spent(db, n, a).invoices, n);
    EnforceIdle(Spent(db, n, a), n);
  }

  /** Releasing the rows of entry e from a batch settled only by it gives every invoice back. */
  lemma {:induction false} ReleaseRestores(db: Db, d: Db, e: nat)
    requires BooksOk(db) && BooksOk(d)
    requires |d.invoices| == |db.invoices|
    requires forall i :: 0 <= i < |db.invoices| ==> Grown(db.invoices[i], d.invoices[i])
    requires |db.allocs| <= |d.allocs|
    requires forall j :: 0 <= j < |d.allocs| ==>
               if j < |db.allocs| then d.allocs[j] == db.allocs[j] && d.allocs[j].entry != Some(e)
               else d.allocs[j].entry == Some(e)
    ensures RefreshAll(d.invoices, ReleaseRows(d.allocs, FromEntry(e))) == db.invoices
  {
    var after := ReleaseRows(d.allocs, FromEntry(e));
    var k := |db.allocs|;
    assert after == db.allocs + after[k..];
    forall i: nat | i < |db.invoices| ensures Refreshed(d.invoices[i], after, i) == db.invoices[i] {
      assert forall j :: 0 <= j < |after[k..]| ==> after[k..][j].released;
      SumConcat(db.allocs, after[k..], OnInvoice(i));
      SumZero(after[k..], OnInvoice(i));
      KindsReleased(db.allocs, after[k..], i);
      assert InvoiceOk(db, i) && Grown(db.invoices[i], d.invoices[i]);
    }
  }

  lemma {:induction false} KindsReleased(allocs: seq<Alloc>, gone: seq<Alloc>, i: nat)
    requires forall j :: 0 <= j < |gone| ==> gone[j].released
    ensures Kinds(allocs + gone, i) == Kinds(allocs, i)
  {
    var s := allocs + gone;
    forall j | |allocs| <= j < |s| ensures s[j].released {
      assert s[j] == gone[j - |allocs|];
    }
    forall k | k in Kinds(s, i) ensures k in Kinds(allocs, i) {
      var j :| 0 <= j < |s| && !s[j].released && s[j].invoice == i && s[j].kind == k;
    }
    forall k | k in Kinds(allocs, i) ensures k in Kinds(s, i) {
      var j :| 0 <= j < |allocs| && !allocs[j].released && allocs[j].invoice == i && allocs[j].kind == k;
      assert s[j] == allocs[j];
    }
  }

  /** Voiding an entry without an invoice releases its rows and enforces. */
  lemma {:induction false} VoidFree(d: Db, e: nat)
    requires e < |d.entries| && !d.entries[e].voided
    requires forall i :: 0 <= i < |d.invoices| ==> d.invoices[i].entry != Some(e)
    ensures Void(d, e, true) == Ok(Enforce(Release(VoidedEntry(d, e), FromEntry(e)), d.entries[e].admin))
  {
    VoidLinkedNone(VoidedEntry(d, e), e, |d.invoices|);
  }

  /** The new entry is live and has no invoice, before and after enforce. */
  lemma {:induction false} SpentIsFree(db: Db, n: Admin, a: NewEntry)
    requires Inv(db) && AutoReducing(a)
    ensures var d, e := Enforce(Spent(db, n, a), n), |db.entries|;
            && Inv(d) && |d.invoices| == |db.invoices|
            && d.entries == Spent(db, n, a).entries && e < |d.entries| && !d.entries[e].voided && d.entries[e].admin == n
            && forall i :: 0 <= i < |d.invoices| ==> d.invoices[i].entry != Some(e)
  {
    var e, d0 := |db.entries|, Spent(db, n, a);
    SpentShape(db, n, a);
    EnforceExact(d0, n);
    PushEntryKeeps(db, n, a.kind, Booked(a).value);
    var d := Enforce(d0, n);
    forall i | 0 <= i < |d.invoices| ensures d.invoices[i].entry != Some(e) {
      assert Grown(db.invoices[i], d0.invoices[i]) && Grown(d0.invoices[i], d.invoices[i]);
    }
  }

  /** When nothing was over the debt before, voiding the entry gives back the balance and every
      invoice whole: its paid amount, its status and what it was settled by. */
  lemma {:induction false} VoidUndoes(db: Db, n: Admin, a: NewEntry)
    requires Inv(db) && AutoReducing(a)
    requires OpenTotal(db, n) <= Debt(db, n) || UnpaidTotal(db, n) == 0
    ensures var r := Void(AddEntry(db, n, a).value, |db.entries|, true);
            r.Ok? && r.value.invoices == db.invoices && forall m :: Balance(r.value, m) == Balance(db, m)
  {
    hide Void;
    hide BooksOk;
    hide Sum;
    hide Max;
    hide Enforce;
    var e, d := |db.entries|, Spent(db, n, a);
    SpentShape(db, n, a);
    SpentIsFree(db, n, a);
    EnforceAddsNothing(db, n, a);
    VoidFree(d, e);
    ReleaseRestores(db, d, e);
    var f := Release(VoidedEntry(d, e), FromEntry(e));
    forall m ensures Balance(f, m) == Balance(db, m) {
      VoidedBalance(d, e, m);
      PushEntryBalance(db, n, a.kind, Booked(a).value, m);
    }
    EnforceIdle(f, n);
  }

  /** Otherwise enforce settles something at the latest after the void, and it stays settled. */
  lemma {:induction false} VoidOverDebt(db: Db, n: Admin, a: NewEntry)
    requires Inv(db) && AutoReducing(a)
    requires OpenTotal(db, n) > Debt(db, n) && UnpaidTotal(db, n) > 0
    ensures AddEntry(db, n, a).Ok?
    ensures var r := Void(AddEntry(db, n, a).value, |db.entries|, true);
            r.Ok? && Balance(r.value, n) == Balance(db, n) && r.value.invoices != db.invoices
  {
    var e, d := |db.entries|, Enforce(Spent(db, n, a), n);
    SpentShape(db, n, a);
    SpentIsFree(db, n, a);
    VoidFree(d, e);
    ReleaseEntryKeeps(d, e);
    VoidedBalance(d, e, n);
    PushEntryBalance(db, n, a.kind, Booked(a).value, n);
    var f := Release(VoidedEntry(d, e), FromEntry(e));
    EnforceExact(f, n);
    OpenSplits(db.invoices, n);
    OpenSplits(f.invoices, n);
  }

  /** The round trip, exactly: a booked and voided payment gives every invoice back if and only if the
      open invoices were within the debt to begin with, or none of them was unpaid. */
  lemma {:induction false} PayThenVoid(db: Db, n: Admin, a: NewEntry)
    requires Inv(db) && AutoReducing(a)
    ensures AddEntry(db, n, a).Ok?
    ensures var r := Void(AddEntry(db, n, a).value, |db.entries|, true);
            && r.Ok?
            && Balance(r.value, n) == Balance(db, n)
            && (r.value.invoices == db.invoices <==> OpenTotal(db, n) <= Debt(db, n) || UnpaidTotal(db, n) == 0)
  {
    SpentShape(db, n, a);
    OpenSplits(db.invoices, n);
    if OpenTotal(db, n) <= Debt(db, n) || UnpaidTotal(db, n) == 0 {
      VoidUndoes(db, n, a);
    } else {
      VoidOverDebt(db, n, a);
    }
  }
}
