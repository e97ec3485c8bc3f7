// The agency's tables as the program updates them, row by row. Every method is proved
// to bring the tables to the state its specification function describes.
module AgencyEngine {
  import opened Wrappers
  import opened Basics
  import opened Records
  import opened Sums
  import opened Books
  import opened Settling
  import opened Pouring
  import opened Enforcement
  import opened Voiding
  import Ledger
  import Billing
  import P = Payments
  import Approving
  import G = PayAll

  // ---- facts the loops use ----

  lemma {:induction false} AddAllPush(db: Db, rows: seq<Alloc>, a: Alloc)
    requires InRange(db, rows) && a.invoice < |db.invoices|
    ensures InRange(db, rows + [a])
    ensures AddAll(db, rows + [a]) == AddRow(AddAll(db, rows), a)
    decreases |rows|
  {
    if rows == [] {
      assert [a][1..] == [];
      assert rows + [a] == [a];
    } else {
      assert (rows + [a])[1..] == rows[1..] + [a];
      AddAllPush(AddRow(db, rows[0]), rows[1..], a);
    }
  }

  lemma {:induction false} AddAllInvoices(db: Db, rows: seq<Alloc>)
    requires InRange(db, rows)
    ensures AddAll(db, rows).payments == db.payments && AddAll(db, rows).now == db.now
    decreases |rows|
  {
    if rows != [] {
      AddAllInvoices(AddRow(db, rows[0]), rows[1..]);
    }
  }

  /** Used-up sources at the front do not matter. */
  lemma {:induction false} PourSkipUsed(ts: seq<Target>, ss: seq<Source>, m: nat, left: int, auto: bool)
    requires m <= |ss| && forall k :: 0 <= k < m ==> ss[k].credit <= 0
    ensures Pour(ts, ss, left, auto) == Pour(ts, ss[m..], left, auto)
    decreases |ts|, m
  {
    if left <= 0 || ts == [] || m == 0 {
      assert m == 0 ==> ss[m..] == ss;
    } else if ts[0].rem <= 0 {
      PourSkipUsed(ts[1..], ss, m, left, auto);
    } else {
      PourSkipUsed(ts, ss[1..], m - 1, left, auto);
      assert ss[1..][m - 1..] == ss[m..];
    }
  }

  function FirstWithCredit(ss: seq<Source>): (r: Option<nat>)
    ensures r.Some? ==> r.value < |ss| && ss[r.value].credit > 0 && forall k :: 0 <= k < r.value ==> ss[k].credit <= 0
    ensures r.None? ==> forall k :: 0 <= k < |ss| ==> ss[k].credit <= 0
  {
    if ss == [] then None
    else if ss[0].credit > 0 then Some(0)
    else
      match FirstWithCredit(ss[1..])
      case None => None
      case Some(k) => Some(k + 1)
  }

  /** The first invoice takes from the first source that still has credit, wherever that is in the list. */
  lemma {:induction false} PourFromFirst(t: Target, ts: seq<Target>, ss: seq<Source>, m: nat, left: int, auto: bool)
    requires m < |ss| && ss[m].credit > 0 && forall k :: 0 <= k < m ==> ss[k].credit <= 0
    requires left > 0 && t.rem > 0
    ensures var take := Min(left, Min(t.rem, ss[m].credit));
            Pour([t] + ts, ss, left, auto)
            == [NewRow(t.id, take, ss[m].kind, Some(ss[m].entry), auto)]
               + Pour([t.(rem := t.rem - take)] + ts, ss[m := ss[m].(credit := ss[m].credit - take)], left - take, auto)
  {
    var take := Min(left, Min(t.rem, ss[m].credit));
    var ss' := ss[m := ss[m].(credit := ss[m].credit - take)];
    PourSkipUsed([t] + ts, ss, m, left, auto);
    PourSkipUsed([t.(rem := t.rem - take)] + ts, ss', m, left - take, auto);
    assert ss'[m..] == [ss[m].(credit := ss[m].credit - take)] + ss[m..][1..];
    assert ([t] + ts)[1..] == ts;
  }

  lemma {:induction false} PourFromBalance(t: Target, ts: seq<Target>, ss: seq<Source>, left: int, auto: bool)
    requires forall k :: 0 <= k < |ss| ==> ss[k].credit <= 0
    requires left > 0 && t.rem > 0
    ensures var take := Min(left, t.rem);
            Pour([t] + ts, ss, left, auto)
            == [NewRow(t.id, take, ByBalance, None, auto)] + Pour([t.(rem := t.rem - take)] + ts, ss, left - take, auto)
  {
    var take := Min(left, t.rem);
    PourSkipUsed([t] + ts, ss, |ss|, left, auto);
    PourSkipUsed([t.(rem := t.rem - take)] + ts, ss, |ss|, left - take, auto);
    assert ss[|ss|..] == [];
    assert ([t] + ts)[1..] == ts && ([t.(rem := t.rem - take)] + ts)[1..] == ts;
  }

  lemma {:induction false} NoOpenNoPlan(db: Db, n: Admin)
    requires forall i :: 0 <= i < |db.invoices| && db.invoices[i].admin == n ==> !db.invoices[i].IsOpen()
    ensures Enforce(db, n) == db
  {
    SumZero(db.invoices, UnpaidOf(n));
    EnforceIdle(db, n);
  }

  class Agency {
    var entries: seq<Entry>
    var invoices: seq<Invoice>
    var allocs: seq<Alloc>
    var payments: seq<Payment>
    var now: int

    constructor (now: int)
      ensures State() == Empty(now)
    {
      entries, invoices, allocs, payments := [], [], [], [];
      this.now := now;
    }

    function State(): Db
      reads this
    {
      Db(entries, invoices, allocs, payments, now)
    }

    /** What a refused operation does: the transaction is rolled back. */
    method Rollback(db: Db)
      modifies this
      ensures State() == db
    {
      entries, invoices, allocs, payments, now := db.entries, db.invoices, db.allocs, db.payments, db.now;
    }

    // ---- allocation.py ----

    method Refresh(i: nat)
      requires i < |invoices|
      modifies `invoices
      ensures invoices == old(invoices)[i := Refreshed(old(invoices)[i], allocs, i)]
    {
      var paid, kinds: set<AllocKind>, j := 0, {}, 0;
      while j < |allocs|
        invariant j <= |allocs| && invoices == old(invoices)
        invariant paid == Settled(allocs[..j], i)
        invariant kinds == Kinds(allocs[..j], i)
      {
        assert allocs[..j + 1] == allocs[..j] + [allocs[j]];
        SumPush(allocs[..j], allocs[j], OnInvoice(i));
        KindsPush(allocs[..j], allocs[j], i);
        if !allocs[j].released && allocs[j].invoice == i {
          paid, kinds := paid + allocs[j].amount, kinds + {allocs[j].kind};
        }
        j := j + 1;
      }
      assert allocs[..j] == allocs;
      var via := Unsettled;
      if kinds != {} {
        var k :| k in kinds;
        via := if kinds == {k} then Via(k) else Mixed;
      }
      var v := invoices[i];
      var status := v.status;
      if v.status != Voided {
        if paid >= v.amount && v.amount > 0 {
          status := Paid;
        } else if v.status == Paid {
          status := Unpaid;
        }
      }
      invoices := invoices[i := v.(paid := paid, via := via, status := status)];
    }

    method Add(a: Alloc)
      requires a.invoice < |invoices|
      modifies this
      ensures State() == AddRow(old(State()), a)
    {
      allocs := allocs + [a];
      Refresh(a.invoice);
    }

    method CancelOpenPayments(ids: seq<nat>)
      modifies `payments
      ensures payments == CancelFor(old(payments), ids)
    {
      var k := 0;
      while k < |payments|
        invariant k <= |payments| == |old(payments)|
        invariant forall j :: 0 <= j < k ==> payments[j] == CancelIf(old(payments)[j], ids)
        invariant forall j :: k <= j < |payments| ==> payments[j] == old(payments)[j]
      {
        var p := payments[k];
        if p.status.AwaitingTransfer? && Touches(p, ids) {
          payments := payments[k := p.(status := Cancelled, lock := None)];
        }
        k := k + 1;
      }
    }

    method CancelCheckouts(ids: seq<nat>)
      modifies `payments
      ensures payments == CancelFor(old(payments), ids)
    {
      if ids != [] {
        CancelOpenPayments(ids);
      } else {
        assert CancelFor(payments, []) == payments;
      }
    }

    /** Pay the targets in order from one entry, each as far as the amount lasts. */
    method Spend(ts: seq<Target>, e: nat, kind: AllocKind, amount: int, auto: bool) returns (done: seq<Alloc>)
      requires forall k :: 0 <= k < |ts| ==> ts[k].id < |invoices|
      modifies this
      ensures done == Ledger.SpendRows(ts, e, kind, amount, auto)
      ensures InRange(old(State()), done) && State() == Apply(old(State()), done)
    {
      hide AddRow;
      ghost var db := State();
      var left, k := amount, 0;
      done := [];
      assert ts[0..] == ts;
      while k < |ts| && left > 0
        invariant k <= |ts|
        invariant InRange(db, done) && State() == AddAll(db, done)
        invariant Ledger.SpendRows(ts, e, kind, amount, auto) == done + Ledger.SpendRows(ts[k..], e, kind, left, auto)
      {
        var take := Min(left, ts[k].rem);
        assert ts[k..][1..] == ts[k + 1..];
        if take > 0 {
          var a := NewRow(ts[k].id, take, kind, Some(e), auto);
          AddAllPush(db, done, a);
          SpendStep(ts[k..], e, kind, left, auto);
          Regroup(done, a, Ledger.SpendRows(ts[k + 1..], e, kind, left - take, auto));
          Add(a);
          done := done + [a];
          left := left - take;
        }
        k := k + 1;
      }
      assert Ledger.SpendRows(ts[k..], e, kind, left, auto) == [];
      assert done + [] == done;
      AddAllInvoices(db, done);
      CancelCheckouts(InvoicesOf(done));
    }

    method Allocate(n: Admin, amount: int, kind: AllocKind, e: nat, ids: seq<int>) returns (r: Result<seq<Alloc>, Refusal>)
      modifies this
      ensures match Ledger.Allocate(old(State()), n, amount, kind, e, ids)
              case Err(x) => r == Err(x) && State() == old(State())
              case Ok(d) => r.Ok? && State() == d
    {
      if amount <= 0 {
        return Ok([]);
      }
      if ids == [] {
        var done := Spend(Targets(State(), n), e, kind, amount, true);
        return Ok(done);
      }
      var bad := !forall x :: x in ids ==> Ledger.CanPick(State(), n, x);
      if bad {
        return Err(Invalid);
      }
      var ts := Ledger.Picked(State(), n, Distinct(ids));
      var done := Spend(ts, e, kind, amount, false);
      r := Ok(done);
    }

    /** The rows enforce would add now. */
    method Plan(n: Admin) returns (steps: seq<Alloc>)
      ensures steps == PlanRows(State(), n)
    {
      var balance := Balance(State(), n);
      var excess := OpenTotal(State(), n) - Max(0, balance);
      steps := [];
      if excess <= 0 {
        return;
      }
      var ts, credits, left, i := Targets(State(), n), Sources(State(), n), excess, 0;
      ghost var want := PlanRows(State(), n);
      assert ts[0..] == ts;
      while i < |ts| && left > 0
        invariant i <= |ts|
        invariant want == steps + Pour(ts[i..], credits, left, true)
      {
        ghost var rest := ts[i + 1..];
        assert ts[i..] == [ts[i]] + rest;
        steps, credits, left := PlanOne(ts[i], rest, credits, left, steps);
        i := i + 1;
      }
      assert Pour(ts[i..], credits, left, true) == [];
    }

    /** One invoice of the plan: it takes from the first source with credit until it or the excess is used up. */
    static method PlanOne(t: Target, ghost rest: seq<Target>, sources: seq<Source>, excess: int, before: seq<Alloc>)
      returns (steps: seq<Alloc>, credits: seq<Source>, left: int)
      requires excess > 0
      ensures before + Pour([t] + rest, sources, excess, true) == steps + Pour(rest, credits, left, true)
    {
      var rem := t.rem;
      steps, credits, left := before, sources, excess;
      while left > 0 && rem > 0
        invariant before + Pour([t] + rest, sources, excess, true)
               == steps + Pour([Target(t.id, rem)] + rest, credits, left, true)
        decreases left
      {
        var source := FirstWithCredit(credits);
        var take, row;
        match source {
          case None =>
            take := Min(left, rem);
            row := NewRow(t.id, take, ByBalance, None, true);
            PourFromBalance(Target(t.id, rem), rest, credits, left, true);
          case Some(k) =>
            take := Min(left, Min(rem, credits[k].credit));
            row := NewRow(t.id, take, credits[k].kind, Some(credits[k].entry), true);
            PourFromFirst(Target(t.id, rem), rest, credits, k, left, true);
            credits := credits[k := credits[k].(credit := credits[k].credit - take)];
        }
        ghost var later := Pour([Target(t.id, rem - take)] + rest, credits, left - take, true);
        assert steps + ([row] + later) == (steps + [row]) + later;
        steps := steps + [row];
        rem := rem - take;
        left := left - take;
      }
      assert ([Target(t.id, rem)] + rest)[1..] == rest;
    }

    method Enforce(n: Admin) returns (steps: seq<Alloc>)
      modifies this
      ensures State() == Enforcement.Enforce(old(State()), n)
    {
      ghost var db := State();
      steps := [];
      var anyOpen := exists i :: 0 <= i < |invoices| && invoices[i].admin == n && invoices[i].IsOpen();
      if !anyOpen {
        NoOpenNoPlan(db, n);
        return;
      }
      steps := Plan(n);
      PourInRange(db, Targets(db, n), Sources(db, n), Excess(db, n), true);
      var k := 0;
      while k < |steps|
        invariant k <= |steps| && |invoices| == |db.invoices|
        invariant InRange(db, steps[..k]) && State() == AddAll(db, steps[..k])
      {
        AddAllPush(db, steps[..k], steps[k]);
        assert steps[..k + 1] == steps[..k] + [steps[k]];
        Add(steps[k]);
        k := k + 1;
      }
      assert steps[..k] == steps;
      AddAllInvoices(db, steps);
      CancelCheckouts(InvoicesOf(steps));
    }

    method MarkReleased(w: Which)
      modifies `allocs
      ensures allocs == ReleaseRows(old(allocs), w)
    {
      var j := 0;
      while j < |allocs|
        invariant j <= |allocs| == |old(allocs)|
        invariant forall l :: 0 <= l < j ==> allocs[l] == ReleaseRow(old(allocs)[l], w)
        invariant forall l :: j <= l < |allocs| ==> allocs[l] == old(allocs)[l]
      {
        if Matches(allocs[j], w) {
          allocs := allocs[j := allocs[j].(released := true)];
        }
        j := j + 1;
      }
    }

    /** Refresh these invoices; the others must be up to date already. */
    method RefreshEach(touched: set<nat>)
      requires forall i :: 0 <= i < |invoices| && i !in touched ==> Refreshed(invoices[i], allocs, i) == invoices[i]
      modifies `invoices
      ensures invoices == RefreshAll(old(invoices), allocs)
    {
      var i := 0;
      while i < |invoices|
        invariant i <= |invoices| == |old(invoices)|
        invariant forall l :: 0 <= l < i ==> invoices[l] == Refreshed(old(invoices)[l], allocs, l)
        invariant forall l :: i <= l < |invoices| ==> invoices[l] == old(invoices)[l]
      {
        if i in touched {
          Refresh(i);
        }
        i := i + 1;
      }
    }

    /** Release the matching rows and refresh the invoices they were on. */
    method ReleaseMatching(w: Which)
      requires forall j :: 0 <= j < |allocs| ==> allocs[j].amount > 0 && allocs[j].invoice < |invoices|
      requires forall i :: 0 <= i < |invoices| ==> Refreshed(invoices[i], allocs, i) == invoices[i]
      modifies this
      ensures State() == Voiding.Release(old(State()), w)
    {
      var touched := set j | 0 <= j < |allocs| && Matches(allocs[j], w) :: allocs[j].invoice;
      ghost var before := allocs;
      MarkReleased(w);
      forall i | 0 <= i < |invoices| && i !in touched ensures Refreshed(invoices[i], allocs, i) == invoices[i] {
        ReleaseSums(before, w, i);
      }
      RefreshEach(touched);
    }

    // ---- allocation.py: voids and outside settlements ----

    method OnEntryVoid(e: nat)
      requires e < |entries| && Counted(State())
      modifies this
      ensures State() == Enforcement.Enforce(Voiding.Release(old(State()), FromEntry(e)), old(entries)[e].admin)
    {
      CountedFixed(State());
      ReleaseMatching(FromEntry(e));
      var _ := Enforce(entries[e].admin);
    }

    method SettleOutside(i: nat) returns (refused: Option<Refusal>)
      modifies this
      ensures Did(refused, Billing.SettleOutside(old(State()), i), old(State()), State())
    {
      if i >= |invoices| {
        return Some(NotFound);
      }
      if !invoices[i].status.Unpaid? {
        return Some(Conflict);
      }
      ghost var db := State();
      var row := Alloc(i, Outside, invoices[i].Remaining(), None, None, false, false);
      assert [row][1..] == [];
      assert AddAll(db, [row]) == AddRow(db, row);
      Add(row);
      assert InvoicesOf([row]) == [i];
      CancelCheckouts([i]);
      refused := None;
    }

    method ApplyEntry(e: nat, mode: Ledger.SettleMode, ids: seq<int>) returns (refused: Option<Refusal>)
      requires e < |entries|
      modifies this
      ensures Did(refused, Ledger.ApplyEntry(old(State()), e, mode, ids), old(State()), State())
    {
      var x := entries[e];
      if x.Reducing() {
        if mode.UnknownSettle? {
          return Some(Invalid);
        }
        if mode.Selected? && ids == [] {
          return Some(Invalid);
        }
        if !mode.NoSettle? {
          var r := Allocate(x.admin, x.Size(), KindOf(x), e, if mode.Selected? then ids else []);
          if r.Err? {
            return Some(r.error);
          }
        }
      } else if ids != [] {
        return Some(Invalid);
      }
      var _ := Enforce(x.admin);
      refused := None;
    }

    // ---- ledger.py ----

    method IssueForEntry(e: nat, kind: InvoiceKind)
      requires e < |entries|
      modifies this
      ensures State() == Ledger.IssueForEntry(old(State()), e, kind)
    {
      var x := entries[e];
      if x.amount <= 0 || !x.IsCharge() {
        return;
      }
      invoices := invoices + [Invoice(x.admin, kind, x.amount, Unpaid, Some(e), now, 0, Unsettled)];
      var _ := Enforce(x.admin);
    }

    method RecordQuotaCharge(n: Admin, amount: nat, kind: InvoiceKind)
      modifies this
      ensures State() == Ledger.ChargeVolume(old(State()), n, amount, kind)
    {
      entries := entries + [Entry(n, QuotaCharge, amount, now, false)];
      IssueForEntry(|entries| - 1, kind);
    }

    /** The checks of add_entry, in its order, and the signed amount to book. */
    static method CheckEntry(a: Ledger.NewEntry) returns (r: Result<int, Refusal>)
      ensures r == Ledger.Booked(a)
    {
      if a.kind.QuotaCharge? {
        return Err(Invalid);
      }
      var amount := a.amount;
      if a.kind.Adjustment? && !a.direction.Signed? {
        if a.direction.UnknownDirection? || amount <= 0 {
          return Err(Invalid);
        }
        if a.direction.Decrease? {
          amount := -amount;
        }
      }
      if !a.kind.Adjustment? && amount <= 0 {
        return Err(Invalid);
      }
      if a.kind.Adjustment? && amount == 0 {
        return Err(Invalid);
      }
      if a.kind.PaymentIn? && !a.knownMethod {
        return Err(Invalid);
      }
      if a.kind.ManualCharge? {
        match a.volume {
          case BadVolume => return Err(Invalid);
          case Unpriced => return Err(NoPrice);
          case Priced(total) => amount := total;
          case NoVolume =>
        }
      }
      r := Ok(amount);
    }

    method AddEntry(n: Admin, a: Ledger.NewEntry) returns (refused: Option<Refusal>)
      modifies this
      ensures Did(refused, Ledger.AddEntry(old(State()), n, a), old(State()), State())
    {
      hide Ledger.Booked;
      hide Ledger.ApplyEntry;
      hide Ledger.IssueForEntry;
      var before := State();
      var amount := CheckEntry(a);
      if amount.Err? {
        return Some(amount.error);
      }
      entries := entries + [Entry(n, a.kind, amount.value, now, false)];
      if a.kind.ManualCharge? {
        IssueForEntry(|entries| - 1, ChargeInvoice);
        refused := None;
      } else {
        refused := ApplyEntry(|entries| - 1, a.mode, a.ids);
        if refused.Some? {
          Rollback(before);
        }
      }
    }

    method VoidRow(i: nat)
      requires i < |invoices| && Counted(State())
      modifies this
      ensures State() == VoidInvoiceRow(old(State()), i)
    {
      ghost var db := State();
      CancelOpenPayments([i]);
      invoices := invoices[i := invoices[i].(status := Voided)];
      CountedFixed(db);
      ReleaseMatching(OfInvoice(i));
    }

    /** A voided charge takes its unpaid invoice with it. */
    method OnLedgerVoid(e: nat)
      requires Counted(State())
      modifies this
      ensures State() == VoidLinked(old(State()), e, |old(invoices)|)
      ensures Counted(State())
    {
      hide Settled;
      hide ViaOf;
      ghost var db := State();
      var k := 0;
      while k < |invoices|
        invariant k <= |invoices| == |db.invoices|
        invariant Counted(State()) && State() == VoidLinked(db, e, k)
      {
        if invoices[k].entry == Some(e) && invoices[k].status.Unpaid? {
          VoidInvoiceRowCounted(State(), k);
          VoidRow(k);
        }
        k := k + 1;
      }
    }

    method Void(e: nat, reasonGiven: bool) returns (refused: Option<Refusal>)
      requires Counted(State())
      modifies this
      ensures Did(refused, Ledger.Void(old(State()), e, reasonGiven), old(State()), State())
    {
      if e >= |entries| {
        return Some(NotFound);
      }
      if entries[e].voided {
        return Some(Conflict);
      }
      if !reasonGiven {
        return Some(Invalid);
      }
      if Ledger.HasSettledInvoice(State(), e) {
        return Some(Conflict);
      }
      ghost var db := State();
      var n := entries[e].admin;
      entries := entries[e := entries[e].(voided := true)];
      CountedSame(db, State());
      OnLedgerVoid(e);
      VoidLinkedEntries(VoidedEntry(db, e), e, |db.invoices|);
      OnEntryVoid(e);
      refused := None;
    }

    // ---- billing.py: invoices ----

    method IssueSettlement(n: Admin, onPanel: bool) returns (refused: Option<Refusal>)
      modifies this
      ensures Did(refused, Billing.IssueSettlement(old(State()), n, onPanel), old(State()), State())
    {
      if !Billing.Known(State(), n, onPanel) {
        return Some(NotFound);
      }
      var amount := Max(0, Billing.OldBalance(State(), n));
      if amount <= 0 {
        return Some(if Billing.HasOpenSettlement(State(), n) then Conflict else Nothing);
      }
      invoices := invoices + [Invoice(n, Settlement, amount, Unpaid, None, now, 0, Unsettled)];
      refused := None;
    }

    method VoidInvoice(i: nat, reasonGiven: bool) returns (refused: Option<Refusal>)
      requires Counted(State())
      modifies this
      ensures Did(refused, Billing.VoidInvoice(old(State()), i, reasonGiven), old(State()), State())
    {
      if i >= |invoices| {
        return Some(NotFound);
      }
      if !invoices[i].status.Unpaid? {
        return Some(Conflict);
      }
      if !reasonGiven {
        return Some(Invalid);
      }
      ghost var db := State();
      var v := invoices[i];
      VoidRow(i);
      if v.entry.Some? && v.entry.value < |entries| && !entries[v.entry.value].voided {
        var e := v.entry.value;
        entries := entries[e := entries[e].(voided := true)];
      }
      assert State() == VoidTogether(db, i);
      var _ := Enforce(v.admin);
      refused := None;
    }

    // ---- billing.py: payments ----

    method CreatePayment(c: P.Checkout) returns (refused: Option<Refusal>)
      modifies this
      ensures Did(refused, P.CreatePayment(old(State()), c), old(State()), State())
    {
      var before := State();
      if c.ids == {} {
        return Some(Invalid);
      }
      if exists i :: i in c.ids && !(0 <= i < |invoices| && invoices[i].admin in c.mayPay) {
        return Some(Forbidden);
      }
      if exists i :: i in c.ids && !invoices[i].status.Unpaid? {
        return Some(Conflict);
      }
      var items := CollectItems(c.ids);
      CancelOpenPayments(P.InvoiceIds(items));
      var total := Sum(items, ItemAmount());
      if total <= 0 {
        Rollback(before);
        return Some(Nothing);
      }
      var unique := PickUnique(c.taken, total, c.extras);
      if unique.None? {
        Rollback(before);
        return Some(Busy);
      }
      payments := payments + [Payment(total, unique.value, Some(unique.value), AwaitingTransfer, items, now, c.expires, None, None, None, false)];
      refused := None;
    }

    /** What is left on the chosen invoices, newest first. */
    method CollectItems(ids: set<int>) returns (items: seq<Item>)
      ensures items == P.ItemsOf(invoices, ids, |invoices|)
    {
      items := [];
      var k := |invoices|;
      while k > 0
        invariant 0 <= k <= |invoices|
        invariant items + P.ItemsOf(invoices, ids, k) == P.ItemsOf(invoices, ids, |invoices|)
      {
        k := k - 1;
        if k in ids {
          Regroup(items, Item(k, invoices[k].Remaining()), P.ItemsOf(invoices, ids, k));
          items := items + [Item(k, invoices[k].Remaining())];
        }
      }
    }

    /** The first surcharge whose total is free. */
    method PickUnique(taken: set<int>, total: int, extras: seq<int>) returns (unique: Option<int>)
      ensures unique == P.FirstFree(payments, taken, total, extras)
    {
      var k := 0;
      while k < |extras|
        invariant k <= |extras|
        invariant P.FirstFree(payments, taken, total, extras) == P.FirstFree(payments, taken, total, extras[k..])
      {
        var candidate := total + extras[k];
        assert extras[k..][1..] == extras[k + 1..];
        if candidate !in taken {
          if P.LockFree(payments, candidate) {
            return Some(candidate);
          }
        }
        k := k + 1;
      }
      unique := None;
    }

    method MarkInvoices(p: Payment, from: InvoiceStatus, to: InvoiceStatus)
      modifies `invoices
      ensures invoices == P.MarkItems(old(invoices), p, from, to)
    {
      var i := 0;
      while i < |invoices|
        invariant i <= |invoices| == |old(invoices)|
        invariant forall l :: 0 <= l < i ==> invoices[l] == P.MarkIf(old(invoices)[l], p.Holds(l), from, to)
        invariant forall l :: i <= l < |invoices| ==> invoices[l] == old(invoices)[l]
      {
        if p.Holds(i) && invoices[i].status == from {
          invoices := invoices[i := invoices[i].(status := to)];
        }
        i := i + 1;
      }
    }

    method SubmitReceipt(k: nat, allowed: bool) returns (refused: Option<Refusal>)
      modifies this
      ensures Did(refused, P.SubmitReceipt(old(State()), k, allowed), old(State()), State())
    {
      if k >= |payments| || !allowed {
        return Some(NotFound);
      }
      var p := payments[k];
      if p.status != AwaitingTransfer && p.status != InReview {
        return Some(Conflict);
      }
      if p.status == AwaitingTransfer && p.expires < now {
        return Some(Conflict);
      }
      p := p.(status := InReview).WithLock();
      payments := payments[k := p];
      MarkInvoices(p, Unpaid, Pending);
      refused := None;
    }

    method CancelPayment(k: nat, allowed: bool) returns (refused: Option<Refusal>)
      modifies this
      ensures Did(refused, P.CancelPayment(old(State()), k, allowed), old(State()), State())
    {
      if k >= |payments| || !allowed {
        return Some(NotFound);
      }
      if payments[k].status != AwaitingTransfer {
        return Some(Conflict);
      }
      payments := payments[k := payments[k].(status := Cancelled).WithLock()];
      refused := None;
    }

    method RejectPayment(k: nat, reasonGiven: bool) returns (refused: Option<Refusal>)
      modifies this
      ensures Did(refused, P.RejectPayment(old(State()), k, reasonGiven), old(State()), State())
    {
      if k >= |payments| {
        return Some(NotFound);
      }
      var p := payments[k];
      if p.status != AwaitingTransfer && p.status != InReview && p.status != Expired {
        return Some(Conflict);
      }
      if !reasonGiven {
        return Some(Invalid);
      }
      p := p.(status := Rejected).WithLock();
      payments := payments[k := p];
      MarkInvoices(p, Pending, Unpaid);
      refused := None;
    }

    method ExpireStale() returns (n: nat)
      modifies `payments
      ensures State() == P.ExpireStale(old(State()))
      ensures n == |P.Differing(old(payments), payments)|
    {
      hide P.Differing;
      n := 0;
      var k := 0;
      ghost var changed: set<int> := {};
      while k < |payments|
        invariant k <= |payments| == |old(payments)|
        invariant forall j :: 0 <= j < k ==> payments[j] == P.ExpireIf(old(payments)[j], now)
        invariant forall j :: k <= j < |payments| ==> payments[j] == old(payments)[j]
        invariant forall j :: j in changed <==> 0 <= j < k && payments[j] != old(payments)[j]
        invariant n == |changed|
      {
        var p := payments[k];
        if p.status == AwaitingTransfer && p.expires < now {
          payments := payments[k := p.(status := Expired).WithLock()];
          n := n + 1;
          changed := changed + {k};
        }
        k := k + 1;
      }
      P.DifferingIs(old(payments), payments, changed);
    }

    /** Put payment k, now under review, back; refused if its unique amount is held by another. */
    method PutInReview(k: nat, p: Payment) returns (refused: Option<Refusal>)
      requires k < |payments|
      modifies this
      ensures Did(refused, if P.LockAvailable(old(payments), k, p) then Ok(P.Review(old(State()), k, p)) else Err(Conflict),
                  old(State()), State())
    {
      if !P.LockAvailable(payments, k, p) {
        return Some(Conflict);
      }
      payments := payments[k := p];
      MarkInvoices(p, Unpaid, Pending);
      refused := None;
    }

    method FlagMismatch(k: nat, amount: int) returns (refused: Option<Refusal>)
      modifies this
      ensures Did(refused, P.FlagMismatch(old(State()), k, amount), old(State()), State())
    {
      if k >= |payments| {
        return Some(NotFound);
      }
      var p := payments[k].(mismatch := Some(amount), late := payments[k].late || !payments[k].Matchable());
      if p.status == AwaitingTransfer || p.status == Expired {
        p := p.(status := InReview);
      }
      refused := PutInReview(k, p.WithLock());
    }

    method HoldAmbiguous(k: nat) returns (refused: Option<Refusal>)
      modifies this
      ensures Did(refused, P.HoldAmbiguous(old(State()), k), old(State()), State())
    {
      if k >= |payments| {
        return Some(NotFound);
      }
      refused := PutInReview(k, payments[k].(status := InReview).WithLock());
    }

    // ---- billing.py: approving ----

    /** The admins of the items, in name order. */
    method SortedNames(all: set<Admin>) returns (names: seq<Admin>)
      ensures names == Approving.InOrder(all)
    {
      hide Approving.Least;
      hide Approving.InOrder;
      names := [];
      var left := all;
      Approving.OrderNone();
      while left != {}
        invariant Approving.InOrder(all) == names + Approving.InOrder(left)
        decreases left
      {
        ghost var least := Approving.Least(left);
        assert least in left && forall x :: x in left ==> least <= x;
        var m :| m in left && forall x :: x in left ==> m <= x;
        Approving.OrderTurn(left, m);
        Regroup(names, m, Approving.InOrder(left - {m}));
        names := names + [m];
        left := left - {m};
      }
    }

    /** What each admin owes of the items. */
    method SumPerAdmin(items: seq<Item>) returns (per: map<Admin, int>)
      requires forall j :: 0 <= j < |items| ==> items[j].invoice < |invoices|
      ensures per.Keys == Approving.Payers(invoices, items)
      ensures forall n :: n in per ==> per[n] == Approving.Due(invoices, items, n)
    {
      per := map[];
      var j := 0;
      while j < |items|
        invariant j <= |items|
        invariant per.Keys == Approving.Payers(invoices, items[..j])
        invariant forall n: Admin :: (if n in per then per[n] else 0) == Approving.Due(invoices, items[..j], n)
      {
        var it := items[j];
        var n := invoices[it.invoice].admin;
        assert items[..j + 1] == items[..j] + [it];
        forall m ensures Approving.Due(invoices, items[..j + 1], m) == Approving.Due(invoices, items[..j], m) + if m == n then it.amount else 0 {
          SumPush(items[..j], it, Approving.OwedBy(invoices, m));
        }
        PayersPush(invoices, items[..j], it);
        per := per[n := (if n in per then per[n] else 0) + it.amount];
        j := j + 1;
      }
      assert items[..j] == items;
    }

    /** Take the shortfall off the last admins first. */
    static method CutShortfall(names: seq<Admin>, due: map<Admin, int>, shortfall: int) returns (per: map<Admin, int>)
      requires Approving.Increasing(names) && forall j :: 0 <= j < |names| ==> names[j] in due
      requires shortfall >= 0 && forall n :: n in due ==> due[n] >= 0
      ensures per.Keys == due.Keys
      ensures forall k :: 0 <= k < |names| ==> per[names[k]] == Left(names, due, shortfall, k)
    {
      hide Left;
      hide Start;
      per := due;
      var short, k := shortfall, |names|;
      ShortAtEnd(names, due, shortfall);
      while k > 0
        invariant 0 <= k <= |names|
        invariant CutFrom(names, due, per, shortfall, k)
        invariant short == Short(names, due, shortfall, k)
      {
        k := k - 1;
        var n := names[k];
        CutOne(names, due, shortfall, k);
        var cut := Min(short, per[n]);
        per := per[n := per[n] - cut];
        short := short - cut;
      }
    }

    /** One payment entry for each of the names that gets any of the money. */
    method BookEntries(ghost items: seq<Item>, names: seq<Admin>, per: map<Admin, int>, ghost money: int)
      returns (entryOf: map<Admin, nat>)
      requires forall j :: 0 <= j < |names| ==>
                 names[j] in per && per[names[j]] == Approving.Kept(invoices, items, names, money, j)
      modifies `entries
      ensures Approving.Bookings(State(), entryOf) == Approving.BookUpTo(old(State()), items, names, money, |names|)
    {
      ghost var db := State();
      entryOf := map[];
      var j := 0;
      while j < |names|
        invariant j <= |names|
        invariant State() == db.(entries := entries)
        invariant Approving.Bookings(State(), entryOf) == Approving.BookUpTo(db, items, names, money, j)
      {
        var n := names[j];
        if per[n] > 0 {
          entries := entries + [Entry(n, PaymentIn, per[n], now, false)];
          entryOf := entryOf[n := |entries| - 1];
        }
        j := j + 1;
      }
    }

    /** One payment entry per admin that gets any of the money; a rounded shortfall stays owed. */
    method LedgerPayments(k: nat, paid: int) returns (entryOf: map<Admin, nat>)
      requires k < |payments| && PaymentOk(State(), payments[k]) && paid <= payments[k].amount
      modifies `entries
      ensures var items := payments[k].items;
              var names := Approving.InOrder(Approving.Payers(invoices, items));
              Approving.Bookings(State(), entryOf) == Approving.BookUpTo(old(State()), items, names, paid, |names|)
    {
      hide Approving.Payers;
      hide Approving.BookUpTo;
      hide Approving.InOrder;
      hide Left;
      var p := payments[k];
      var due := SumPerAdmin(p.items);
      var names := SortedNames(due.Keys);
      forall j | 0 <= j < |names| ensures names[j] in due { assert names[j] in names; }
      forall n | n in due ensures due[n] >= 0 { Approving.DueNonNegative(invoices, p.items, n); }
      var per := CutShortfall(names, due, Max(0, p.amount - paid));
      AllKept(invoices, p.items, names, due, paid);
      entryOf := BookEntries(p.items, names, per, paid);
    }

    /** An approved checkout settles what is still open of its invoices, then everyone's debt rule is applied. */
    method AllocatePayment(k: nat, items: seq<Item>, entryOf: map<Admin, nat>, names: seq<Admin>)
      requires Approving.ItemsInRange(State(), items)
      modifies this
      ensures State() == Approving.EnforceUpTo(Approving.SettleUpTo(old(State()), items, entryOf, k, |items|), names, |names|)
    {
      ghost var db := State();
      var j := 0;
      while j < |items|
        invariant j <= |items| && |invoices| == |db.invoices|
        invariant State() == Approving.SettleUpTo(db, items, entryOf, k, j)
      {
        var it := items[j];
        var v := invoices[it.invoice];
        var take := Min(it.amount, v.Remaining());
        if take > 0 {
          Add(Alloc(it.invoice, ByPayment, take, if v.admin in entryOf then Some(entryOf[v.admin]) else None, Some(k), false, false));
          if invoices[it.invoice].status == Pending {
            invoices := invoices[it.invoice := invoices[it.invoice].(status := Unpaid)];
          }
        }
        j := j + 1;
      }
      ghost var settled := State();
      j := 0;
      while j < |names|
        invariant j <= |names|
        invariant State() == Approving.EnforceUpTo(settled, names, j)
      {
        var _ := Enforce(names[j]);
        j := j + 1;
      }
    }

    /** What arrived decides the payment's amounts; the surcharge that made it unique is not debt. */
    method DecideApproval(k: nat, deposit: Option<int>)
      requires k < |payments|
      modifies `payments
      ensures State() == P.SetPayment(old(State()), k, Approving.ApprovedPayment(old(payments)[k], deposit))
    {
      var p := payments[k];
      var paid;
      if deposit.Some? {
        paid := deposit.value;
      } else if p.mismatch.Some? {
        paid := p.mismatch.value;
      } else {
        paid := p.unique;
      }
      var covered := Min(paid, p.amount);
      p := p.(status := Approved).WithLock();
      p := p.(received := Some(paid), shortfall := if covered < p.amount then Some(p.amount - covered) else None);
      payments := payments[k := p];
    }

    /** The entries, allocations and debt rules of a payment just approved. */
    method RecordApproval(k: nat, deposit: Option<int>, ghost db: Db)
      requires k < |db.payments| && PaymentOk(db, db.payments[k])
      requires State() == P.SetPayment(db, k, Approving.ApprovedPayment(db.payments[k], deposit))
      modifies this
      ensures Approving.ItemsInRange(db, db.payments[k].items)
      ensures State() == Approving.EnforceUpTo(Approving.SettlePayment(db, k, deposit), Approving.Names(db, k), |Approving.Names(db, k)|)
    {
      hide Approving.BookUpTo;
      hide Approving.InOrder;
      hide Approving.EnforceUpTo;
      hide Approving.SettleUpTo;
      var p := payments[k];
      assert PaymentOk(State(), p);
      var entryOf := LedgerPayments(k, Min(p.received.value, p.amount));
      var payers := set j | 0 <= j < |p.items| && p.items[j].invoice < |invoices| :: invoices[p.items[j].invoice].admin;
      var names := SortedNames(payers);
      AllocatePayment(k, p.items, entryOf, names);
    }

    method ApprovePayment(k: nat, deposit: Option<int>) returns (refused: Option<Refusal>)
      requires Inv(State())
      modifies this
      ensures Did(refused, Approving.ApprovePayment(old(State()), k, deposit), old(State()), State())
    {
      if k >= |payments| {
        return Some(NotFound);
      }
      var p := payments[k];
      if p.status == Approved {
        return None;
      }
      if p.status != AwaitingTransfer && p.status != InReview && p.status != Expired && p.status != Rejected {
        return Some(Conflict);
      }
      ghost var db := State();
      assert PaymentOk(db, p);
      DecideApproval(k, deposit);
      RecordApproval(k, deposit, db);
      refused := None;
    }

    // ---- billing.py: paying a whole group ----

    method AdminDebt(n: Admin) returns (d: G.AdminDebt)
      ensures d == G.DebtOf(State(), n)
    {
      var items, openSum, review, k := [], 0, 0, 0;
      while k < |invoices|
        invariant k <= |invoices|
        invariant items == G.OpenItems(invoices, n, k)
        invariant openSum == Sum(invoices[..k], OpenOf(n)) && review == Sum(invoices[..k], ReviewOf(n))
      {
        var v := invoices[k];
        assert invoices[..k + 1] == invoices[..k] + [v];
        SumPush(invoices[..k], v, OpenOf(n));
        SumPush(invoices[..k], v, ReviewOf(n));
        var rem := v.Remaining();
        if v.admin == n && v.IsOpen() && rem > 0 {
          openSum := openSum + rem;
          if v.status == Pending {
            review := review + rem;
          }
          items := items + [G.OpenInvoice(k, rem, v.status)];
        }
        k := k + 1;
      }
      assert invoices[..k] == invoices;
      var oldBalance := Max(0, Balance(State(), n) - openSum - OutsideTotal(State(), n));
      if oldBalance > 0 {
        items := items + [G.OldDebt(oldBalance)];
      }
      d := G.AdminDebt(n, openSum + oldBalance, review, items);
    }

    method DebtBreakdown(names: seq<Admin>) returns (d: G.Breakdown)
      ensures d.payable == G.Payable(State(), names)
      ensures d.total == Sum(names, G.DebtTotal(State())) && d.review == Sum(names, G.ReviewTotalOf(State()))
      ensures d.ledgerDebt == Sum(names, G.LedgerDebtOf(State())) && d.outside == Sum(names, G.OutsideTotalOf(State()))
      ensures |d.admins| == |names| && forall j :: 0 <= j < |names| ==> d.admins[j] == G.DebtOf(State(), names[j])
    {
      var db := State();
      var admins, total, review, ledgerDebt, outside, j := [], 0, 0, 0, 0, 0;
      while j < |names|
        invariant j <= |names|
        invariant total == Sum(names[..j], G.DebtTotal(db)) && review == Sum(names[..j], G.ReviewTotalOf(db))
        invariant ledgerDebt == Sum(names[..j], G.LedgerDebtOf(db)) && outside == Sum(names[..j], G.OutsideTotalOf(db))
        invariant |admins| == j && forall l :: 0 <= l < j ==> admins[l] == G.DebtOf(db, names[l])
      {
        var n := names[j];
        var a := AdminDebt(n);
        BreakdownPush(db, names, j);
        admins := admins + [a];
        total, review := total + a.total, review + a.review;
        ledgerDebt, outside := ledgerDebt + Debt(db, n), outside + OutsideTotal(db, n);
        j := j + 1;
      }
      assert names[..j] == names;
      G.PayableIsRest(db, names);
      d := G.Breakdown(total, total - review, review, ledgerDebt, outside, admins);
    }

    /** The unpaid invoices listed for one admin, and a settlement invoice if an old debt is listed. */
    method GatherAdmin(a: G.AdminDebt, onPanel: bool, ghost db0: Db) returns (r: Result<set<int>, Refusal>)
      requires a == G.DebtOf(db0, a.admin)
      modifies this
      ensures var ids := G.UnpaidIds(db0, a.admin);
              if Billing.OldBalance(db0, a.admin) <= 0 then r == Ok(ids) && State() == old(State())
              else match Billing.IssueSettlement(old(State()), a.admin, onPanel)
                   case Err(x) => r == Err(x)
                   case Ok(d) => r == Ok(ids + {|old(invoices)|}) && State() == d
    {
      hide G.UnpaidAmong;
      hide G.OpenItems;
      ghost var listed := G.OpenItems(db0.invoices, a.admin, |db0.invoices|);
      G.UnpaidListed(db0, a.admin, |db0.invoices|);
      assert (set i | i in G.UnpaidIds(db0, a.admin) && i < |db0.invoices|) == G.UnpaidIds(db0, a.admin);
      G.NoneUnpaid();
      var ids, j := {}, 0;
      while j < |a.items|
        invariant j <= |a.items|
        invariant j <= |listed| ==> State() == old(State()) && ids == G.UnpaidAmong(a.items[..j])
        invariant j > |listed| ==>
                    Billing.IssueSettlement(old(State()), a.admin, onPanel) == Ok(State())
                    && ids == G.UnpaidAmong(listed) + {|old(invoices)|}
      {
        G.UnpaidPush(a.items[..j], a.items[j]);
        assert a.items[..j + 1] == a.items[..j] + [a.items[j]];
        assert j < |listed| ==> a.items[j] == listed[j];
        match a.items[j] {
          case OpenInvoice(id, amount, status) =>
            if status == Unpaid {
              ids := ids + {id};
            }
          case OldDebt(_) =>
            assert a.items[..j] == listed;
            var refused := IssueSettlement(a.admin, onPanel);
            if refused.Some? {
              return Err(refused.value);
            }
            ids := ids + {|invoices| - 1};
        }
        j := j + 1;
      }
      assert a.items[..j] == a.items;
      assert Billing.OldBalance(db0, a.admin) <= 0 ==> a.items == listed;
      r := Ok(ids);
    }

    method PayAll(o: G.Order) returns (r: G.Outcome)
      modifies this
      ensures r == G.PayEverything(old(State()), o)
      ensures State() == if r.Created? then r.db else old(State())
    {
      hide G.GatherUpTo;
      hide P.CreatePayment;
      hide G.Payable;
      hide G.DebtOf;
      var before := State();
      if !o.payerGiven {
        return G.Refused(Invalid);
      }
      var d := DebtBreakdown(o.names);
      match o.expected {
        case AnyTotal =>
        case Garbled => return G.Refused(Invalid);
        case Exactly(total) =>
          if total != d.payable {
            return G.Refused(TotalChanged);
          }
      }
      if d.payable <= 0 {
        return G.Refused(Nothing);
      }
      var gathered := GatherGroup(o, d, before);
      if gathered.Err? {
        Rollback(before);
        return G.Refused(gathered.error);
      }
      ghost var settled := State();
      var refused := CreatePayment(G.CheckoutFor(o, gathered.value));
      if refused.Some? {
        Rollback(before);
        return G.Refused(refused.value);
      }
      CreatedOne(settled, G.CheckoutFor(o, gathered.value));
      if payments[|payments| - 1].amount != d.payable {
        Rollback(before);
        return G.Mismatch;
      }
      r := G.Created(State());
    }

    method GatherGroup(o: G.Order, d: G.Breakdown, db0: Db) returns (r: Result<set<int>, Refusal>)
      requires State() == db0
      requires |d.admins| == |o.names| && forall j :: 0 <= j < |o.names| ==> d.admins[j] == G.DebtOf(db0, o.names[j])
      modifies this
      ensures match G.GatherUpTo(db0, o.names, o.onPanel, |o.names|)
              case Err(x) => r == Err(x)
              case Ok(g) => r == Ok(g.ids) && State() == g.db
    {
      hide G.GatherUpTo;
      hide Billing.IssueSettlement;
      hide Billing.OldBalance;
      hide G.UnpaidIds;
      var ids, j := {}, 0;
      GatherNone(db0, o.names, o.onPanel);
      while j < |d.admins|
        invariant j <= |d.admins|
        invariant G.GatherUpTo(db0, o.names, o.onPanel, j) == Ok(G.Gathered(State(), ids))
      {
        var a := d.admins[j];
        ghost var was := State();
        var more := GatherAdmin(a, a.admin in o.onPanel, db0);
        GatherNext(db0, o.names, o.onPanel, j, was, ids);
        if more.Err? {
          GatherStops(db0, o.names, o.onPanel, j + 1, |o.names|);
          return Err(more.error);
        }
        assert ids + G.UnpaidIds(db0, a.admin) + {|was.invoices|} == ids + (G.UnpaidIds(db0, a.admin) + {|was.invoices|});
        ids := ids + more.value;
        j := j + 1;
      }
      r := Ok(ids);
    }
  }

  lemma {:induction false} SpendStep(ts: seq<Target>, e: nat, kind: AllocKind, left: int, auto: bool)
    requires ts != [] && left > 0 && ts[0].rem > 0
    ensures var take := Min(left, ts[0].rem);
            Ledger.SpendRows(ts, e, kind, left, auto)
            == [NewRow(ts[0].id, take, kind, Some(e), auto)] + Ledger.SpendRows(ts[1..], e, kind, left - take, auto)
  {
    var take := Min(left, ts[0].rem);
    var ts' := [ts[0].(rem := ts[0].rem - take)] + ts[1..];
    var ss' := [Source(e, kind, left - take)];
    assert ss' + [Source(e, kind, left)][1..] == ss';
    assert ts'[1..] == ts[1..];
    assert Ledger.SpendRows(ts, e, kind, left, auto)
        == [NewRow(ts[0].id, take, kind, Some(e), auto)] + Pour(ts', ss', left - take, auto);
    assert Pour(ts', ss', left - take, auto) == Pour(ts[1..], ss', left - take, auto);
  }

  /** What a method reports and leaves behind, against what its specification says of the state before. */
  ghost predicate Did(refused: Option<Refusal>, want: Result<Db, Refusal>, before: Db, after: Db) {
    match want
    case Err(r) => refused == Some(r) && after == before
    case Ok(d) => refused == None && after == d
  }

  lemma {:induction false} CountedFixed(db: Db)
    requires Counted(db)
    ensures forall i :: 0 <= i < |db.invoices| ==> Refreshed(db.invoices[i], db.allocs, i) == db.invoices[i]
    ensures forall i :: 0 <= i < |db.invoices| ==>
              Refreshed(db.invoices[i].(status := Voided), db.allocs, i) == db.invoices[i].(status := Voided)
  {
    forall i | 0 <= i < |db.invoices|
      ensures Refreshed(db.invoices[i], db.allocs, i) == db.invoices[i]
      ensures Refreshed(db.invoices[i].(status := Voided), db.allocs, i) == db.invoices[i].(status := Voided)
    {
      assert InvoiceOk(db, i);
    }
  }

  lemma {:induction false} CountedSame(db: Db, d: Db)
    requires Counted(db) && d.invoices == db.invoices && d.allocs == db.allocs && d.now == db.now
    ensures Counted(d)
  {
    forall i | 0 <= i < |d.invoices| ensures InvoiceOk(d, i) { assert InvoiceOk(db, i); }
  }

  lemma {:induction false} VoidLinkedEntries(db: Db, e: nat, k: nat)
    requires k <= |db.invoices|
    ensures VoidLinked(db, e, k).entries == db.entries
  {
    if k > 0 {
      VoidLinkedEntries(db, e, k - 1);
    }
  }

  // ---- facts about per-admin sums ----

  function DueIn(due: map<Admin, int>): Admin -> int {
    (n: Admin) => if n in due then due[n] else 0
  }

  /** Where admin k's part of the total starts. */
  function Start(names: seq<Admin>, due: map<Admin, int>, k: nat): int
    requires k <= |names|
  {
    Sum(names[..k], DueIn(due))
  }

  /** What is left of admin k's part: the money covers the parts in order. */
  function Left(names: seq<Admin>, due: map<Admin, int>, shortfall: int, k: nat): int
    requires k < |names| && names[k] in due
  {
    Max(0, Min(due[names[k]], Start(names, due, |names|) - shortfall - Start(names, due, k)))
  }

  /** The shortfall still to take when the parts from k on are done. */
  function Short(names: seq<Admin>, due: map<Admin, int>, shortfall: int, k: nat): int
    requires k <= |names|
  {
    Max(0, shortfall - (Start(names, due, |names|) - Start(names, due, k)))
  }

  ghost predicate CutFrom(names: seq<Admin>, due: map<Admin, int>, per: map<Admin, int>, shortfall: int, k: nat)
    requires k <= |names| && forall j :: 0 <= j < |names| ==> names[j] in due
  {
    && per.Keys == due.Keys
    && (forall j :: 0 <= j < k ==> per[names[j]] == due[names[j]])
    && (forall j :: k <= j < |names| ==> per[names[j]] == Left(names, due, shortfall, j))
  }

  lemma {:induction false} ShortAtEnd(names: seq<Admin>, due: map<Admin, int>, shortfall: int)
    requires shortfall >= 0
    ensures Short(names, due, shortfall, |names|) == shortfall
  {
  }

  /** Taking what is short off admin k leaves exactly its covered part. */
  lemma {:induction false} CutOne(names: seq<Admin>, due: map<Admin, int>, shortfall: int, k: nat)
    requires k < |names| && names[k] in due && due[names[k]] >= 0
    ensures var short, cut := Short(names, due, shortfall, k + 1), Min(Short(names, due, shortfall, k + 1), due[names[k]]);
            due[names[k]] - cut == Left(names, due, shortfall, k) && short - cut == Short(names, due, shortfall, k)
  {
    assert names[..k + 1] == names[..k] + [names[k]];
    SumPush(names[..k], names[k], DueIn(due));
  }

  lemma {:induction false} PayersPush(invoices: seq<Invoice>, items: seq<Item>, it: Item)
    requires it.invoice < |invoices|
    ensures Approving.Payers(invoices, items + [it]) == Approving.Payers(invoices, items) + {invoices[it.invoice].admin}
  {
    var s := items + [it];
    forall n | n in Approving.Payers(invoices, items) ensures n in Approving.Payers(invoices, s) {
      var j :| 0 <= j < |items| && items[j].invoice < |invoices| && invoices[items[j].invoice].admin == n;
      assert s[j] == items[j];
    }
    assert s[|items|] == it;
  }

  lemma {:induction false} DuesUpTo(invoices: seq<Invoice>, items: seq<Item>, names: seq<Admin>, due: map<Admin, int>, k: nat)
    requires k <= |names| && forall n :: n in names ==> n in due && due[n] == Approving.Due(invoices, items, n)
    ensures Sum(names[..k], DueIn(due)) == Sum(names[..k], Approving.DueOf(invoices, items))
  {
    forall j | 0 <= j < k ensures DueIn(due)(names[..k][j]) == Approving.DueOf(invoices, items)(names[..k][j]) {
      assert names[j] in names;
    }
    SumEqual(names[..k], DueIn(due), names[..k], Approving.DueOf(invoices, items));
  }

  lemma {:induction false} DuesTotal(invoices: seq<Invoice>, items: seq<Item>, names: seq<Admin>, due: map<Admin, int>)
    requires names == Approving.InOrder(Approving.Payers(invoices, items))
    requires forall j :: 0 <= j < |items| ==> items[j].invoice < |invoices|
    requires forall n :: n in names ==> n in due && due[n] == Approving.Due(invoices, items, n)
    ensures Sum(names, DueIn(due)) == Sum(items, ItemAmount())
  {
    forall j | 0 <= j < |items| ensures invoices[items[j].invoice].admin in names {
      assert invoices[items[j].invoice].admin in Approving.Payers(invoices, items);
    }
    Approving.DuesCover(invoices, items, names);
    DuesUpTo(invoices, items, names, due, |names|);
    assert names[..|names|] == names;
  }

  /** Cutting the shortfall from the end is the same as paying from the front. */
  lemma {:induction false} LeftIsKept(invoices: seq<Invoice>, items: seq<Item>, names: seq<Admin>, due: map<Admin, int>, paid: int, k: nat)
    requires names == Approving.InOrder(Approving.Payers(invoices, items)) && k < |names|
    requires forall j :: 0 <= j < |items| ==> items[j].invoice < |invoices|
    requires forall n :: n in names ==> n in due && due[n] == Approving.Due(invoices, items, n)
    requires paid <= Sum(items, ItemAmount())
    ensures Left(names, due, Max(0, Sum(items, ItemAmount()) - paid), k) == Approving.Kept(invoices, items, names, paid, k)
  {
    hide Approving.InOrder;
    hide Sum;
    DuesTotal(invoices, items, names, due);
    DuesUpTo(invoices, items, names, due, k);
    assert names[..|names|] == names;
    var total := Sum(items, ItemAmount());
    assert Start(names, due, |names|) == total;
    assert due[names[k]] == Approving.Due(invoices, items, names[k]);
  }

  lemma {:induction false} AllKept(invoices: seq<Invoice>, items: seq<Item>, names: seq<Admin>, due: map<Admin, int>, paid: int)
    requires names == Approving.InOrder(Approving.Payers(invoices, items))
    requires forall j :: 0 <= j < |items| ==> items[j].invoice < |invoices|
    requires forall n :: n in names ==> n in due && due[n] == Approving.Due(invoices, items, n)
    requires paid <= Sum(items, ItemAmount())
    ensures forall j :: 0 <= j < |names| ==>
              Left(names, due, Max(0, Sum(items, ItemAmount()) - paid), j) == Approving.Kept(invoices, items, names, paid, j)
  {
    hide Approving.InOrder;
    hide Approving.Kept;
    hide Left;
    hide Sum;
    forall j | 0 <= j < |names| ensures names[j] in due { assert names[j] in names; }
    forall j | 0 <= j < |names|
      ensures Left(names, due, Max(0, Sum(items, ItemAmount()) - paid), j) == Approving.Kept(invoices, items, names, paid, j)
    {
      LeftIsKept(invoices, items, names, due, paid, j);
    }
  }

  // ---- facts about gathering ----

  lemma {:induction false} CreatedOne(db: Db, c: P.Checkout)
    requires P.CreatePayment(db, c).Ok?
    ensures P.CreatePayment(db, c).value.payments != []
  {
  }

  lemma {:induction false} BreakdownPush(db: Db, names: seq<Admin>, j: nat)
    requires j < |names|
    ensures var d := G.DebtOf(db, names[j]);
            && Sum(names[..j + 1], G.DebtTotal(db)) == Sum(names[..j], G.DebtTotal(db)) + d.total
            && Sum(names[..j + 1], G.ReviewTotalOf(db)) == Sum(names[..j], G.ReviewTotalOf(db)) + d.review
            && Sum(names[..j + 1], G.LedgerDebtOf(db)) == Sum(names[..j], G.LedgerDebtOf(db)) + Debt(db, names[j])
            && Sum(names[..j + 1], G.OutsideTotalOf(db)) == Sum(names[..j], G.OutsideTotalOf(db)) + OutsideTotal(db, names[j])
  {
    assert names[..j + 1] == names[..j] + [names[j]];
    SumPush(names[..j], names[j], G.DebtTotal(db));
    SumPush(names[..j], names[j], G.ReviewTotalOf(db));
    SumPush(names[..j], names[j], G.LedgerDebtOf(db));
    SumPush(names[..j], names[j], G.OutsideTotalOf(db));
  }

  lemma {:induction false} GatherNone(db0: Db, names: seq<Admin>, onPanel: set<Admin>)
    ensures G.GatherUpTo(db0, names, onPanel, 0) == Ok(G.Gathered(db0, {}))
  {
  }

  lemma {:induction false} GatherNext(db0: Db, names: seq<Admin>, onPanel: set<Admin>, k: nat, was: Db, ids: set<int>)
    requires k < |names| && G.GatherUpTo(db0, names, onPanel, k) == Ok(G.Gathered(was, ids))
    ensures var n := names[k];
            G.GatherUpTo(db0, names, onPanel, k + 1)
            == if Billing.OldBalance(db0, n) <= 0 then Ok(G.Gathered(was, ids + G.UnpaidIds(db0, n)))
               else match Billing.IssueSettlement(was, n, n in onPanel)
                    case Err(x) => Err(x)
                    case Ok(d) => Ok(G.Gathered(d, ids + G.UnpaidIds(db0, n) + {|was.invoices|}))
  {
  }

  /** Once refused, gathering stays refused for the same reason. */
  lemma {:induction false} GatherStops(db0: Db, names: seq<Admin>, onPanel: set<Admin>, j: nat, k: nat)
    requires j <= k <= |names| && G.GatherUpTo(db0, names, onPanel, j).Err?
    ensures G.GatherUpTo(db0, names, onPanel, k) == G.GatherUpTo(db0, names, onPanel, j)
  {
    if j < k {
      GatherStops(db0, names, onPanel, j, k - 1);
    }
  }
}
