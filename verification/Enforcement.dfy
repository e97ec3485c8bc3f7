// The rule that an admin's open invoices never exceed the ledger debt, and what
// applying it does, exactly.
module Enforcement {
  import opened Wrappers
  import opened Basics
  import opened Records
  import opened Sums
  import opened Books
  import opened Settling
  import opened Pouring
  import opened Stretches

  // ---- unfinished checkouts of changed invoices ----

  predicate Touches(p: Payment, ids: seq<nat>) {
    exists j :: 0 <= j < |ids| && p.Holds(ids[j])
  }

  function CancelIf(p: Payment, ids: seq<nat>): Payment {
    if p.status.AwaitingTransfer? && Touches(p, ids) then p.(status := Cancelled).WithLock() else p
  }

  function CancelFor(payments: seq<Payment>, ids: seq<nat>): seq<Payment> {
    seq(|payments|, k requires 0 <= k < |payments| => CancelIf(payments[k], ids))
  }

  function InvoicesOf(rows: seq<Alloc>): seq<nat> {
    seq(|rows|, j requires 0 <= j < |rows| => rows[j].invoice)
  }

  // ---- the plan and its application ----

  function Excess(db: Db, n: Admin): int {
    OpenTotal(db, n) - Debt(db, n)
  }

  /** The rows that bring the open invoices of n back to the debt, as far as its unpaid ones go. */
  function PlanRows(db: Db, n: Admin): seq<Alloc> {
    Pour(Targets(db, n), Sources(db, n), Excess(db, n), true)
  }

  lemma {:induction false} PourInRange(db: Db, ts: seq<Target>, ss: seq<Source>, left: int, auto: bool)
    requires forall k :: 0 <= k < |ts| ==> ts[k].id < |db.invoices|
    ensures InRange(db, Pour(ts, ss, left, auto))
    decreases |ts| + |ss|, Max(0, left)
  {
    if left <= 0 || ts == [] {
    } else if ts[0].rem <= 0 {
      PourInRange(db, ts[1..], ss, left, auto);
    } else if ss == [] {
      PourInRange(db, ts[1..], ss, left - Min(left, ts[0].rem), auto);
    } else if ss[0].credit <= 0 {
      PourInRange(db, ts, ss[1..], left, auto);
    } else {
      var take := Take(ts, ss, left);
      PourInRange(db, CutTarget(ts, take), CutSource(ss, take), left - take, auto);
    }
  }

  /** Add the rows and cancel the unfinished checkouts of their invoices. */
  ghost function Apply(db: Db, rows: seq<Alloc>): Db
    requires InRange(db, rows)
  {
    AddAll(db, rows).(payments := CancelFor(db.payments, InvoicesOf(rows)))
  }

  ghost function Enforce(db: Db, n: Admin): Db {
    PourInRange(db, Targets(db, n), Sources(db, n), Excess(db, n), true);
    Apply(db, PlanRows(db, n))
  }

  // ---- what applying rows keeps ----

  /** Everything of d that a step settling invoices of n must leave as in db. */
  ghost predicate OnlySettles(db: Db, d: Db, n: Admin) {
    && d.entries == db.entries && d.now == db.now
    && |d.invoices| == |db.invoices|
    && (forall i :: 0 <= i < |db.invoices| ==>
          && Grown(db.invoices[i], d.invoices[i])
          && (db.invoices[i].admin != n || !db.invoices[i].status.Unpaid? ==> d.invoices[i] == db.invoices[i]))
    && |d.payments| == |db.payments|
    && (forall k :: 0 <= k < |db.payments| ==>
          d.payments[k] == db.payments[k]
          || (db.payments[k].status.AwaitingTransfer? && d.payments[k] == db.payments[k].(status := Cancelled).WithLock()))
  }

  /** Cancelling unfinished checkouts, with the invoices under review only shrinking, keeps the payment rules. */
  lemma {:induction false} CancelKeeps(db: Db, d: Db)
    requires PaymentsOk(db)
    requires |d.invoices| >= |db.invoices|
    requires forall i :: 0 <= i < |d.invoices| && d.invoices[i].status.Pending? ==>
               i < |db.invoices| && db.invoices[i].status.Pending?
    requires |d.payments| == |db.payments|
    requires forall k :: 0 <= k < |db.payments| ==>
               d.payments[k] == db.payments[k]
               || (db.payments[k].status.AwaitingTransfer? &&
                   (d.payments[k] == db.payments[k].(status := Cancelled).WithLock()
                    || d.payments[k] == db.payments[k].(status := Expired).WithLock()))
    ensures PaymentsOk(d)
  {
    hide Sum;
    hide ItemAmount;
    forall k | 0 <= k < |d.payments| ensures PaymentOk(d, d.payments[k]) {
      assert PaymentOk(db, db.payments[k]);
    }
    assert forall k :: 0 <= k < |d.payments| && d.payments[k].lock.Some? ==> d.payments[k] == db.payments[k];
    assert forall k :: 0 <= k < |d.payments| && d.payments[k].status.AwaitingTransfer? ==> d.payments[k] == db.payments[k];
    forall i | 0 <= i < |d.invoices| ensures ReviewCovered(d, i) {
      if d.invoices[i].status.Pending? {
        assert ReviewCovered(db, i);
        var k :| 0 <= k < |db.payments| && db.payments[k].Covers(i);
        assert d.payments[k].items == db.payments[k].items;
        assert d.payments[k].Covers(i);
      }
    }
  }

  lemma {:induction false} ApplyKeeps(db: Db, rows: seq<Alloc>, n: Admin)
    requires Inv(db) && InRange(db, rows) && Fits(db, rows, n)
    ensures Inv(Apply(db, rows))
    ensures OnlySettles(db, Apply(db, rows), n)
    ensures Apply(db, rows).allocs == db.allocs + rows
    ensures UnpaidTotal(Apply(db, rows), n) == UnpaidTotal(db, n) - Total(rows)
    ensures ReviewTotal(Apply(db, rows), n) == ReviewTotal(db, n)
  {
    AddAllGrows(db, rows, n);
    AddAllTotals(db, rows, n);
    var d, d0 := Apply(db, rows), AddAll(db, rows);
    forall i | 0 <= i < |d.invoices| && d.invoices[i].status.Pending? ensures db.invoices[i].status.Pending? {
      assert Grown(db.invoices[i], d0.invoices[i]);
    }
    CancelKeeps(db, d);
    BooksSame(d0, d);
  }

  /** The books do not look at the payments. */
  lemma {:induction false} BooksSame(d0: Db, d: Db)
    requires BooksOk(d0)
    requires d.entries == d0.entries && d.invoices == d0.invoices && d.allocs == d0.allocs && d.now >= d0.now
    ensures BooksOk(d)
  {
    forall e | 0 <= e < |d.entries| ensures EntryOk(d, e) { assert EntryOk(d0, e); }
    forall i | 0 <= i < |d.invoices| ensures InvoiceOk(d, i) && LinkOk(d, i) { assert InvoiceOk(d0, i) && LinkOk(d0, i); }
    forall j | 0 <= j < |d.allocs| ensures AllocOk(d, d.allocs[j]) { assert AllocOk(d0, d0.allocs[j]); }
  }

  lemma {:induction false} OthersKeep(db: Db, d: Db, n: Admin, m: Admin)
    requires OnlySettles(db, d, n) && m != n
    ensures OpenTotal(d, m) == OpenTotal(db, m)
    ensures UnpaidTotal(d, m) == UnpaidTotal(db, m)
    ensures ReviewTotal(d, m) == ReviewTotal(db, m)
    ensures Balance(d, m) == Balance(db, m)
  {
    TotalsSame(db.invoices, d.invoices, m);
  }

  // ---- the theorem about enforce ----

  lemma {:induction false} EnforceFits(db: Db, n: Admin)
    requires BooksOk(db)
    ensures InRange(db, PlanRows(db, n)) && Fits(db, PlanRows(db, n), n)
    ensures Total(PlanRows(db, n)) == Min(Max(0, Excess(db, n)), UnpaidTotal(db, n))
  {
    TargetsFit(db, n);
    SourcesFit(db, n);
    PourFits(db, n, Targets(db, n), Sources(db, n), Excess(db, n), true);
    PourTotal(Targets(db, n), Sources(db, n), Excess(db, n), true);
  }

  /** After enforce the open invoices of n are worth exactly max(P, min(P + U, debt)), where P is
      what is under review and U what is unpaid before. Nobody else's numbers move. */
  lemma {:induction false} EnforceExact(db: Db, n: Admin)
    requires Inv(db)
    ensures var d, p, u := Enforce(db, n), ReviewTotal(db, n), UnpaidTotal(db, n);
            && Inv(d)
            && OnlySettles(db, d, n)
            && OpenTotal(d, n) == Max(p, Min(p + u, Debt(db, n)))
            && ReviewTotal(d, n) == p
            && Balance(d, n) == Balance(db, n)
  {
    EnforceFits(db, n);
    ApplyKeeps(db, PlanRows(db, n), n);
    OpenSplits(db.invoices, n);
    OpenSplits(Enforce(db, n).invoices, n);
  }

  /** Within the debt there is nothing to do. */
  lemma {:induction false} EnforceIdle(db: Db, n: Admin)
    requires OpenTotal(db, n) <= Debt(db, n) || UnpaidTotal(db, n) == 0
    ensures Enforce(db, n) == db
  {
    TargetsFit(db, n);
    PourTotal(Targets(db, n), Sources(db, n), Excess(db, n), true);
    if UnpaidTotal(db, n) == 0 {
      PourNothing(Targets(db, n), Sources(db, n), Excess(db, n), true);
    }
    assert PlanRows(db, n) == [];
    assert CancelFor(db.payments, InvoicesOf([])) == db.payments;
  }

  lemma {:induction false} PourNothing(ts: seq<Target>, ss: seq<Source>, left: int, auto: bool)
    requires forall k :: 0 <= k < |ts| ==> ts[k].rem >= 0
    requires Sum(ts, RemOf()) == 0
    ensures Pour(ts, ss, left, auto) == []
    decreases |ts| + |ss|, Max(0, left)
  {
    if left > 0 && ts != [] {
      SumFront(ts, RemOf());
      SumMember(ts, RemOf());
      assert RemOf()(ts[0]) == 0;
      PourNothing(ts[1..], ss, left, auto);
    }
  }

  // ---- who is paid first, and by what ----

  lemma {:induction false} PlanPieces(db: Db, n: Admin)
    ensures Pieces(Targets(db, n), Sources(db, n))
  {
    TargetsFit(db, n);
  }

  /** Exactly what enforce pays into the i-th unpaid invoice: the excess, laid along the line of what
      is left of the unpaid invoices, oldest first, as far as it reaches this one's piece. */
  lemma {:induction false} EnforcePays(db: Db, n: Admin, i: nat)
    requires Inv(db) && i < |Targets(db, n)|
    ensures var t := Targets(db, n)[i];
            Enforce(db, n).invoices[t.id].paid
            == db.invoices[t.id].paid + Reached(Targets(db, n), Max(0, Excess(db, n)), i)
  {
    var ts, ss, cut := Targets(db, n), Sources(db, n), Excess(db, n);
    EnforceFits(db, n);
    AddAllPaid(db, PlanRows(db, n), n, ts[i].id);
    PlanPieces(db, n);
    if cut > 0 {
      PourInvoice(ts, ss, cut, true, i);
    } else {
      StartGrows(ts, RemOf(), i);
    }
  }

  /** A newer invoice gets money only when every older unpaid one is paid in full. */
  lemma {:induction false} OldestFirst(db: Db, n: Admin, elder: nat, newer: nat)
    requires Inv(db)
    requires elder < newer < |db.invoices|
    requires IsTarget(db.invoices[elder], n) && IsTarget(db.invoices[newer], n)
    requires Enforce(db, n).invoices[newer].paid > db.invoices[newer].paid
    ensures Enforce(db, n).invoices[elder].status.Paid?
  {
    hide Inv;
    hide IsTarget;
    var ts, d := Targets(db, n), Enforce(db, n);
    TargetsComplete(db.invoices, n, |db.invoices|, elder);
    TargetsComplete(db.invoices, n, |db.invoices|, newer);
    var i :| 0 <= i < |ts| && ts[i].id == elder;
    var j :| 0 <= j < |ts| && ts[j].id == newer;
    EnforcePays(db, n, j);
    PlanPieces(db, n);
    assert i < j;
    StartStep(ts, i, j);
    ReachedInFull(db, n, i);
  }

  /** An unpaid invoice whose piece lies left of the excess is paid. */
  lemma {:induction false} ReachedInFull(db: Db, n: Admin, i: nat)
    requires Inv(db) && i < |Targets(db, n)|
    requires Start(Targets(db, n), RemOf(), i) + Targets(db, n)[i].rem <= Excess(db, n)
    ensures Enforce(db, n).invoices[Targets(db, n)[i].id].status.Paid?
  {
    var id := Targets(db, n)[i].id;
    EnforcePays(db, n, i);
    EnforceExact(db, n);
    assert InvoiceOk(Enforce(db, n), id) && InvoiceOk(db, id);
    assert Grown(db.invoices[id], Enforce(db, n).invoices[id]);
  }

  lemma {:induction false} StartStep(ts: seq<Target>, i: nat, j: nat)
    requires i < j <= |ts| && forall k :: 0 <= k < |ts| ==> ts[k].rem >= 0
    ensures Start(ts, RemOf(), i) + ts[i].rem <= Start(ts, RemOf(), j)
  {
    assert ts[..j] == ts[..j - 1] + [ts[j - 1]];
    SumPush(ts[..j - 1], ts[j - 1], RemOf());
    if i < j - 1 {
      StartStep(ts, i, j - 1);
    }
  }

  /** No source gives more than its credit. */
  lemma {:induction false} NoOverspending(db: Db, n: Admin, s: nat)
    requires s < |Sources(db, n)|
    ensures 0 <= Sum(PlanRows(db, n), FromSource(Some(Sources(db, n)[s].entry))) <= EntryCredit(db, Sources(db, n)[s].entry)
  {
    PlanPieces(db, n);
    var ss := Sources(db, n);
    if Excess(db, n) > 0 {
      PourSource(Targets(db, n), ss, Excess(db, n), true, s);
    }
  }

  /** Money comes from the balance only when every source has given all its credit. */
  lemma {:induction false} BalanceLast(db: Db, n: Admin, s: nat)
    requires s < |Sources(db, n)|
    requires Sum(PlanRows(db, n), FromSource(None)) > 0
    ensures Sum(PlanRows(db, n), FromSource(Some(Sources(db, n)[s].entry))) == EntryCredit(db, Sources(db, n)[s].entry)
  {
    PlanPieces(db, n);
    var ts, ss, cut := Targets(db, n), Sources(db, n), Excess(db, n);
    if cut > 0 {
      PourSource(ts, ss, cut, true, s);
      PourSource(ts, ss, cut, true, |ss|);
      SourceStep(ss, s, |ss|);
    }
  }

  lemma {:induction false} SourceStep(ss: seq<Source>, i: nat, j: nat)
    requires i < j <= |ss| && forall k :: 0 <= k < |ss| ==> ss[k].credit >= 0
    ensures Start(ss, CreditOf(), i) + ss[i].credit <= Start(ss, CreditOf(), j)
  {
    assert ss[..j] == ss[..j - 1] + [ss[j - 1]];
    SumPush(ss[..j - 1], ss[j - 1], CreditOf());
    if i < j - 1 {
      SourceStep(ss, i, j - 1);
    }
  }
}
