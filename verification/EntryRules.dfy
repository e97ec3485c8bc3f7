// What booking and voiding a ledger entry does, said outright: when it is accepted, what it adds to whose debt, which
// invoice it makes or voids, and which money it moves.
module EntryRules {
  import opened Wrappers
  import opened Basics
  import opened Records
  import opened Sums
  import opened Books
  import opened Settling
  import opened Pouring
  import opened Stretches
  import opened Enforcement
  import opened Voiding
  import opened Ledger
  import opened Spending

  // ---- when an entry is accepted ----

  /** It can be an entry: staff book no quota charge; amounts are positive, or signed and not zero; a payment came some
      known way; and volume has a price. */
  predicate WellFormed(a: NewEntry) {
    match a.kind
    case QuotaCharge => false
    case ManualCharge => a.amount >= 1 && (a.volume.NoVolume? || a.volume.Priced?)
    case PaymentIn => a.amount >= 1 && a.knownMethod
    case Adjustment =>
      match a.direction
      case Signed => a.amount != 0
      case Increase => a.amount >= 1
      case Decrease => a.amount >= 1
      case UnknownDirection => false
  }

  /** It makes the debt smaller, so it can settle invoices. */
  predicate Lowers(a: NewEntry) {
    match a.kind
    case PaymentIn => true
    case Adjustment => a.direction.Decrease? || (a.direction.Signed? && a.amount <= -1)
    case _ => false
  }

  /** What it is to settle can be settled: nothing, anything, or chosen invoices that the admin has unpaid. */
  predicate CanSettle(db: Db, n: Admin, a: NewEntry) {
    if a.kind.ManualCharge? then true
    else if !Lowers(a) then a.ids == []
    else match a.mode
      case Auto => true
      case NoSettle => true
      case UnknownSettle => false
      case Selected =>
        a.ids != [] && forall x :: x in a.ids ==>
          0 <= x < |db.invoices| && db.invoices[x].admin == n && db.invoices[x].status.Unpaid?
  }

  lemma {:induction false} BookedWhen(a: NewEntry)
    ensures Booked(a).Ok? <==> WellFormed(a)
    ensures Booked(a).Ok? && !a.kind.ManualCharge? ==> (Entry(0, a.kind, Booked(a).value, 0, false).Reducing() <==> Lowers(a))
    ensures Booked(a).Ok? ==> (a.kind.PaymentIn? ==> Booked(a).value > 0) && (a.kind.Adjustment? ==> Booked(a).value != 0)
    ensures Booked(a).Ok? && a.kind.ManualCharge? ==> Booked(a).value >= 0
    ensures Booked(a).Err? ==>
              Booked(a).error == if a.kind.ManualCharge? && a.amount >= 1 && a.volume.Unpriced? then NoPrice else Invalid
  {
  }

  /** An entry is accepted exactly if it is well formed and can settle what it is to settle. */
  lemma {:induction false} AcceptedWhen(db: Db, n: Admin, a: NewEntry)
    ensures AddEntry(db, n, a).Ok? <==> WellFormed(a) && CanSettle(db, n, a)
    ensures AddEntry(db, n, a).Err? ==>
              AddEntry(db, n, a).error == if a.kind.ManualCharge? && a.amount >= 1 && a.volume.Unpriced? then NoPrice else Invalid
  {
    hide Enforce, Apply, IssueForEntry, Pour;
    BookedWhen(a);
    if Booked(a).Ok? && !a.kind.ManualCharge? {
      var d := PushEntry(db, n, a.kind, Booked(a).value);
      var x := d.entries[|db.entries|];
      assert x.Reducing() <==> Lowers(a);
      assert x.Reducing() ==> x.Size() > 0;
      assert forall c: int :: CanPick(d, n, c) <==> 0 <= c < |db.invoices| && db.invoices[c].admin == n && db.invoices[c].status.Unpaid?;
    }
  }

  // ---- what it adds to the debt ----

  /** Nothing after the new row changes the ledger. */
  lemma {:induction false} EntriesAfter(db: Db, n: Admin, a: NewEntry)
    requires AddEntry(db, n, a).Ok?
    ensures Booked(a).Ok? && AddEntry(db, n, a).value.entries == db.entries + [Entry(n, a.kind, Booked(a).value, db.now, false)]
  {
    hide Enforce, Apply, Pour;
    var d := PushEntry(db, n, a.kind, Booked(a).value);
    var x, e := d.entries[|db.entries|], |db.entries|;
    EnforceRows(d, n);
    if a.kind.ManualCharge? {
      EnforceRows(PushInvoice(d, n, ChargeInvoice, x.amount, Some(e)), n);
    } else if x.Reducing() && !a.mode.NoSettle? {
      AllocateEntries(d, n, x.Size(), KindOf(x), e, if a.mode.Selected? then a.ids else []);
      var r := Allocate(d, n, x.Size(), KindOf(x), e, if a.mode.Selected? then a.ids else []);
      EnforceRows(r.value, n);
    }
  }

  lemma {:induction false} AllocateEntries(db: Db, n: Admin, amount: int, kind: AllocKind, e: nat, ids: seq<int>)
    requires Allocate(db, n, amount, kind, e, ids).Ok?
    ensures Allocate(db, n, amount, kind, e, ids).value.entries == db.entries
  {
    hide Pour;
    if amount > 0 && ids == [] {
      PourInRange(db, Targets(db, n), [Source(e, kind, amount)], amount, true);
      AddAllStays(db, SpendRows(Targets(db, n), e, kind, amount, true));
    } else if amount > 0 {
      PourInRange(db, Picked(db, n, Distinct(ids)), [Source(e, kind, amount)], amount, false);
      AddAllStays(db, SpendRows(Picked(db, n, Distinct(ids)), e, kind, amount, false));
    }
  }

  /** An accepted entry is one new row of the ledger, of this admin and this moment. A decrease and a payment lower the
      admin's debt by their amount, an increase raises it, a signed adjustment adds what it says, and a charge its price,
      or its amount if it has no volume. Nobody else's debt moves. */
  lemma {:induction false} EntryMoves(db: Db, n: Admin, a: NewEntry)
    requires AddEntry(db, n, a).Ok?
    ensures var d := AddEntry(db, n, a).value;
            && |d.entries| == |db.entries| + 1 && d.entries[..|db.entries|] == db.entries
            && (var x := d.entries[|db.entries|]; x.admin == n && x.kind == a.kind && x.created == db.now && !x.voided)
            && (a.kind.Adjustment? && a.direction.Decrease? ==> Balance(d, n) == Balance(db, n) - a.amount)
            && (a.kind.Adjustment? && a.direction.Increase? ==> Balance(d, n) == Balance(db, n) + a.amount)
            && (a.kind.Adjustment? && a.direction.Signed? ==> Balance(d, n) == Balance(db, n) + a.amount)
            && (a.kind.PaymentIn? ==> Balance(d, n) == Balance(db, n) - a.amount)
            && (a.kind.ManualCharge? && a.volume.Priced? ==> Balance(d, n) == Balance(db, n) + a.volume.total)
            && (a.kind.ManualCharge? && a.volume.NoVolume? ==> Balance(d, n) == Balance(db, n) + a.amount)
            && (forall m :: m != n ==> Balance(d, m) == Balance(db, m))
  {
    hide AddEntry, Sum;
    var d := AddEntry(db, n, a).value;
    EntriesAfter(db, n, a);
    AcceptedWhen(db, n, a);
    forall m ensures Balance(d, m) == Balance(db, m) + BalanceOf(m)(d.entries[|db.entries|]) {
      SumPush(db.entries, d.entries[|db.entries|], BalanceOf(m));
    }
  }

  // ---- which invoice it makes ----

  /** A charge of more than zero has one new invoice, for its amount and admin; a charge of zero has none. */
  lemma {:induction false} IssuesOne(db: Db, e: nat, kind: InvoiceKind)
    requires Inv(db) && e < |db.entries| && !db.entries[e].voided && db.entries[e].IsCharge()
    requires forall i :: 0 <= i < |db.invoices| ==> db.invoices[i].entry != Some(e)
    ensures var x, d := db.entries[e], IssueForEntry(db, e, kind);
            if x.amount <= 0 then d == db
            else
              && |d.invoices| == |db.invoices| + 1
              && (var v := d.invoices[|db.invoices|];
                  && v.admin == x.admin && v.kind == kind && v.amount == x.amount && v.entry == Some(e) && v.created == db.now
                  && (v.status.Unpaid? || v.status.Paid?))
              && (forall i :: 0 <= i < |db.invoices| ==> Grown(db.invoices[i], d.invoices[i]))
  {
    hide Enforce, Inv;
    var x := db.entries[e];
    if x.amount > 0 {
      var d := PushInvoice(db, x.admin, kind, x.amount, Some(e));
      PushInvoiceKeeps(db, x.admin, kind, x.amount, Some(e));
      EnforceExact(d, x.admin);
      assert forall i :: 0 <= i < |db.invoices| ==> d.invoices[i] == db.invoices[i];
      assert Grown(d.invoices[|db.invoices|], Enforce(d, x.admin).invoices[|db.invoices|]);
    }
  }

  /** A manual charge makes one charge invoice, for what it adds to the debt; no other entry makes one. */
  lemma {:induction false} EntryIssues(db: Db, n: Admin, a: NewEntry)
    requires Inv(db) && AddEntry(db, n, a).Ok?
    ensures var d := AddEntry(db, n, a).value;
            if a.kind.ManualCharge? && Balance(d, n) > Balance(db, n) then
              && |d.invoices| == |db.invoices| + 1
              && (var v := d.invoices[|db.invoices|];
                  v.admin == n && v.kind.ChargeInvoice? && v.amount == Balance(d, n) - Balance(db, n) && v.entry == Some(|db.entries|))
            else |d.invoices| == |db.invoices|
  {
    hide Enforce, Inv, IssueForEntry, Allocate, Balance;
    EntryMoves(db, n, a);
    BookedWhen(a);
    var amount := Booked(a).value;
    var d := PushEntry(db, n, a.kind, amount);
    PushEntryKeeps(db, n, a.kind, amount);
    EnforceExact(d, n);
    PushEntryBalance(db, n, a.kind, amount, n);
    if a.kind.ManualCharge? {
      IssuesOne(d, |db.entries|, ChargeInvoice);
      IssueBalance(d, |db.entries|, ChargeInvoice, n);
    } else {
      var x := d.entries[|db.entries|];
      var ids := if a.mode.Selected? then a.ids else [];
      var r := Allocate(d, n, x.Size(), KindOf(x), |db.entries|, ids);
      if x.Reducing() && !a.mode.NoSettle? && r.Ok? {
        AllocateKeeps(d, n, x.Size(), KindOf(x), |db.entries|, ids);
        EnforceExact(r.value, n);
      }
    }
  }

  lemma {:induction false} IssueBalance(db: Db, e: nat, kind: InvoiceKind, m: Admin)
    requires e < |db.entries|
    ensures Balance(IssueForEntry(db, e, kind), m) == Balance(db, m)
  {
    hide Enforce;
    var x := db.entries[e];
    EnforceRows(PushInvoice(db, x.admin, kind, x.amount, Some(e)), x.admin);
  }

  /** A charge for volume is one new row of the ledger, which raises the admin's debt by its amount and nobody else's; above
      zero it has one invoice of that amount, and the debt rule holds afterwards. */
  lemma {:induction false} QuotaMoves(db: Db, n: Admin, amount: nat, kind: InvoiceKind)
    requires Inv(db)
    ensures var d := ChargeVolume(db, n, amount, kind);
            && d.entries == db.entries + [Entry(n, EntryKind.QuotaCharge, amount, db.now, false)]
            && (forall m :: Balance(d, m) == Balance(db, m) + if m == n then amount else 0)
            && (if amount > 0 then
                  && WithinDebt(d, n)
                  && |d.invoices| == |db.invoices| + 1
                  && (var v := d.invoices[|db.invoices|];
                      v.admin == n && v.kind == kind && v.amount == amount && v.entry == Some(|db.entries|))
                else d.invoices == db.invoices)
  {
    hide IssueForEntry, Inv, Balance, WithinDebt;
    var d := PushEntry(db, n, EntryKind.QuotaCharge, amount);
    PushEntryKeeps(db, n, EntryKind.QuotaCharge, amount);
    IssuesOne(d, |db.entries|, kind);
    IssueForEntryKeeps(d, |db.entries|, kind);
    IssueEntries(d, |db.entries|, kind);
    forall m ensures Balance(IssueForEntry(d, |db.entries|, kind), m) == Balance(db, m) + if m == n then amount else 0 {
      IssueBalance(d, |db.entries|, kind, m);
      PushEntryBalance(db, n, EntryKind.QuotaCharge, amount, m);
    }
  }

  lemma {:induction false} IssueEntries(db: Db, e: nat, kind: InvoiceKind)
    requires e < |db.entries|
    ensures IssueForEntry(db, e, kind).entries == db.entries
  {
    hide Enforce;
    var x := db.entries[e];
    EnforceRows(PushInvoice(db, x.admin, kind, x.amount, Some(e)), x.admin);
  }

  // ---- which invoices it settles ----

  /** The invoices it is to settle, in order. */
  function Chosen(db: Db, n: Admin, a: NewEntry): seq<Target>
    requires CanSettle(db, n, a) && Lowers(a)
  {
    if a.mode.Selected? then Picked(db, n, Distinct(a.ids)) else Targets(db, n)
  }

  /** The new row and then what it is spent on, before enforce. */
  lemma {:induction false} EntrySpends(db: Db, n: Admin, a: NewEntry)
    requires Inv(db) && AddEntry(db, n, a).Ok? && Lowers(a) && !a.mode.NoSettle?
    ensures Booked(a).Ok? && CanSettle(db, n, a)
    ensures var d, e := PushEntry(db, n, a.kind, Booked(a).value), |db.entries|;
            var x, ids := d.entries[e], if a.mode.Selected? then a.ids else [];
            && Inv(d) && Spendable(d, n, e) && x.Size() == (if a.amount < 0 then -a.amount else a.amount)
            && (forall c :: c in ids ==> CanPick(d, n, c)) && SpentOn(d, n, ids) == Chosen(db, n, a)
            && Allocate(d, n, x.Size(), KindOf(x), e, ids).Ok?
            && AddEntry(db, n, a).value == Enforce(Allocate(d, n, x.Size(), KindOf(x), e, ids).value, n)
  {
    hide Enforce, Inv, Allocate;
    AcceptedWhen(db, n, a);
    BookedWhen(a);
    PushEntryKeeps(db, n, a.kind, Booked(a).value);
    SameChosen(db, PushEntry(db, n, a.kind, Booked(a).value), n, a);
  }

  /** A payment or a decrease that is to settle invoices pays them, the chosen ones in the chosen order or else the oldest
      first, as far as it goes; enforce may add to that. */
  lemma {:induction false} EntrySettles(db: Db, n: Admin, a: NewEntry, k: nat)
    requires Inv(db) && AddEntry(db, n, a).Ok? && Lowers(a) && !a.mode.NoSettle?
    ensures CanSettle(db, n, a)
    ensures k < |Chosen(db, n, a)| ==>
              var d, t := AddEntry(db, n, a).value, Chosen(db, n, a)[k];
              && t.id < |db.invoices| && t.id < |d.invoices|
              && d.invoices[t.id].paid
                 >= db.invoices[t.id].paid + Reached(Chosen(db, n, a), if a.amount < 0 then -a.amount else a.amount, k)
  {
    hide Enforce, Inv, Allocate, Reached, AddEntry, Chosen, SpentOn, CanSettle, Sum;
    EntrySpends(db, n, a);
    var d, e := PushEntry(db, n, a.kind, Booked(a).value), |db.entries|;
    var x, ids := d.entries[e], if a.mode.Selected? then a.ids else [];
    AllocateKeeps(d, n, x.Size(), KindOf(x), e, ids);
    var r := Allocate(d, n, x.Size(), KindOf(x), e, ids).value;
    EnforceExact(r, n);
    if k < |Chosen(db, n, a)| {
      assert Grown(r.invoices[Chosen(db, n, a)[k].id], Enforce(r, n).invoices[Chosen(db, n, a)[k].id]);
    }
  }

  /** After every accepted entry but a charge of zero, the admin's open invoices are within its debt, apart from what is
      under review. */
  lemma {:induction false} EntryEnforced(db: Db, n: Admin, a: NewEntry)
    requires Inv(db) && AddEntry(db, n, a).Ok?
    ensures Balance(AddEntry(db, n, a).value, n) != Balance(db, n) ==> WithinDebt(AddEntry(db, n, a).value, n)
  {
    hide Enforce, Inv, Allocate, WithinDebt, IssueForEntry, Balance;
    BookedWhen(a);
    var d, e := PushEntry(db, n, a.kind, Booked(a).value), |db.entries|;
    PushEntryKeeps(db, n, a.kind, Booked(a).value);
    EnforceWithin(d, n);
    if a.kind.ManualCharge? {
      IssueForEntryKeeps(d, e, ChargeInvoice);
      IssueBalance(d, e, ChargeInvoice, n);
      PushEntryBalance(db, n, a.kind, Booked(a).value, n);
    } else if d.entries[e].Reducing() && !a.mode.NoSettle? {
      EntrySpends(db, n, a);
      var x, ids := d.entries[e], if a.mode.Selected? then a.ids else [];
      AllocateKeeps(d, n, x.Size(), KindOf(x), e, ids);
      EnforceWithin(Allocate(d, n, x.Size(), KindOf(x), e, ids).value, n);
    }
  }

  lemma {:induction false} SameChosen(db: Db, d: Db, n: Admin, a: NewEntry)
    requires d.invoices == db.invoices && CanSettle(db, n, a) && Lowers(a)
    ensures CanSettle(d, n, a)
    ensures var ids := if a.mode.Selected? then a.ids else [];
            (forall x :: x in ids ==> CanPick(d, n, x)) && SpentOn(d, n, ids) == Chosen(db, n, a)
  {
  }

  // ---- which rows it writes ----

  ghost predicate RowsFrom(db: Db, d: Db, e: nat, kind: AllocKind, byHand: bool) {
    && |db.allocs| <= |d.allocs| && d.allocs[..|db.allocs|] == db.allocs
    && (forall j :: |db.allocs| <= j < |d.allocs| ==>
          && !d.allocs[j].released && d.allocs[j].payment.None? && d.allocs[j].amount > 0
          && (d.allocs[j].auto || (byHand && d.allocs[j].entry == Some(e)))
          && (d.allocs[j].entry == Some(e) ==> d.allocs[j].kind == kind))
  }

  lemma {:induction false} EnforceWrites(db: Db, d: Db, n: Admin, e: nat, kind: AllocKind, byHand: bool)
    requires RowsFrom(db, d, e, kind, byHand) && e < |d.entries| && kind == KindOf(d.entries[e])
    ensures RowsFrom(db, Enforce(d, n), e, kind, byHand)
  {
    hide Enforce;
    EnforceRows(d, n);
    SourcesExactly(d, n, e);
    var d', rows := Enforce(d, n), PlanRows(d, n);
    forall j | |db.allocs| <= j < |d'.allocs|
      ensures !d'.allocs[j].released && d'.allocs[j].payment.None? && d'.allocs[j].amount > 0
      ensures d'.allocs[j].auto || (byHand && d'.allocs[j].entry == Some(e))
      ensures d'.allocs[j].entry == Some(e) ==> d'.allocs[j].kind == kind
    {
      if j >= |d.allocs| {
        assert Drawn(rows[j - |d.allocs|], Sources(d, n), true);
      } else {
        assert d'.allocs[j] == d.allocs[j];
      }
    }
  }

  /** Spending an entry writes rows of this entry only. */
  lemma {:induction false} SpendWrites(db: Db, ts: seq<Target>, e: nat, kind: AllocKind, amount: int, auto: bool)
    requires InRange(db, SpendRows(ts, e, kind, amount, auto)) && (forall k :: 0 <= k < |ts| ==> ts[k].rem >= 0)
    requires !kind.ByBalance? && amount > 0
    ensures RowsFrom(db, Apply(db, SpendRows(ts, e, kind, amount, auto)), e, kind, !auto)
    ensures Apply(db, SpendRows(ts, e, kind, amount, auto)).entries == db.entries
  {
    var ss, rows := [Source(e, kind, amount)], SpendRows(ts, e, kind, amount, auto);
    AddAllStays(db, rows);
    PourDrawn(ts, ss, amount, auto);
    OnlyThisSource(ts, e, kind, amount, amount, auto);
    forall j | 0 <= j < |rows| ensures rows[j].entry == Some(e) && rows[j].kind == kind && rows[j].auto == auto {
      assert Drawn(rows[j], ss, auto);
    }
  }

  /** What is spent never exceeds the source, so nothing is left for the balance. */
  lemma {:induction false} OnlyThisSource(ts: seq<Target>, e: nat, kind: AllocKind, credit: int, left: int, auto: bool)
    requires left <= credit
    ensures forall j :: 0 <= j < |Pour(ts, [Source(e, kind, credit)], left, auto)| ==>
              Pour(ts, [Source(e, kind, credit)], left, auto)[j].entry == Some(e)
    decreases |ts|, Max(0, left)
  {
    hide Pour;
    var ss := [Source(e, kind, credit)];
    PourTurn(ts, ss, left, auto);
    if left > 0 && ts != [] {
      if ts[0].rem <= 0 {
        OnlyThisSource(ts[1..], e, kind, credit, left, auto);
      } else {
        var take := Min(left, Min(ts[0].rem, credit));
        var ts' := [ts[0].(rem := ts[0].rem - take)] + ts[1..];
        assert [ss[0].(credit := credit - take)] + ss[1..] == [Source(e, kind, credit - take)];
        OnlyThisSource(ts', e, kind, credit - take, left - take, auto);
      }
    }
  }

  /** The rows an accepted entry leads to are marked automatic, unless it settles chosen invoices: then its own rows are
      not. Its own rows say whether it is a payment or an adjustment. */
  lemma {:induction false} EntryWrites(db: Db, n: Admin, a: NewEntry)
    requires AddEntry(db, n, a).Ok?
    ensures RowsFrom(db, AddEntry(db, n, a).value, |db.entries|, if a.kind.PaymentIn? then ByManual else ByAdjustment,
                     Lowers(a) && a.mode.Selected?)
  {
    hide Enforce, Apply, Pour, RowsFrom;
    BookedWhen(a);
    var d, e := PushEntry(db, n, a.kind, Booked(a).value), |db.entries|;
    var x, kind, byHand := d.entries[e], if a.kind.PaymentIn? then ByManual else ByAdjustment, Lowers(a) && a.mode.Selected?;
    NoRowsFrom(db, d, e, kind, byHand);
    if a.kind.ManualCharge? {
      var d' := PushInvoice(d, n, ChargeInvoice, x.amount, Some(e));
      NoRowsFrom(db, d', e, kind, byHand);
      EnforceWrites(db, d', n, e, kind, byHand);
    } else if x.Reducing() && !a.mode.NoSettle? {
      AllocateWrites(db, d, n, x.Size(), kind, e, if a.mode.Selected? then a.ids else []);
      var r := Allocate(d, n, x.Size(), kind, e, if a.mode.Selected? then a.ids else []);
      assert KindOf(x) == kind;
      EnforceWrites(db, r.value, n, e, kind, byHand);
    } else {
      EnforceWrites(db, d, n, e, kind, byHand);
    }
  }

  lemma {:induction false} NoRowsFrom(db: Db, d: Db, e: nat, kind: AllocKind, byHand: bool)
    requires d.allocs == db.allocs
    ensures RowsFrom(db, d, e, kind, byHand)
  {
  }

  lemma {:induction false} AllocateWrites(db: Db, d: Db, n: Admin, amount: int, kind: AllocKind, e: nat, ids: seq<int>)
    requires d.allocs == db.allocs && amount > 0 && !kind.ByBalance? && Allocate(d, n, amount, kind, e, ids).Ok?
    ensures RowsFrom(db, Allocate(d, n, amount, kind, e, ids).value, e, kind, ids != [])
    ensures Allocate(d, n, amount, kind, e, ids).value.entries == d.entries
  {
    hide Pour, Apply;
    if ids == [] {
      PourInRange(d, Targets(d, n), [Source(e, kind, amount)], amount, true);
      SpendWrites(d, Targets(d, n), e, kind, amount, true);
    } else {
      PourInRange(d, Picked(d, n, Distinct(ids)), [Source(e, kind, amount)], amount, false);
      SpendWrites(d, Picked(d, n, Distinct(ids)), e, kind, amount, false);
    }
  }

  // ---- voiding ----

  /** An entry is voided once, for a reason, and not while an invoice charged by it is paid or under review. */
  lemma {:induction false} VoidedWhen(db: Db, e: nat, why: bool)
    ensures Void(db, e, why).Ok? <==>
              && e < |db.entries| && !db.entries[e].voided && why
              && forall i :: 0 <= i < |db.invoices| && db.invoices[i].entry == Some(e) ==>
                   db.invoices[i].status.Unpaid? || db.invoices[i].status.Voided?
    ensures Void(db, e, why).Err? ==>
              Void(db, e, why).error == if e >= |db.entries| then NotFound
                                        else if !db.entries[e].voided && !why then Invalid
                                        else Conflict
  {
    hide Enforce, Release, VoidLinked;
  }

  /** Row j settles with money of entry e, or settles an invoice charged by it. */
  ghost predicate Concerns(db: Db, a: Alloc, e: nat) {
    a.entry == Some(e) || (a.invoice < |db.invoices| && db.invoices[a.invoice].entry == Some(e))
  }

  /** The books with entry e, its rows and its invoice taken out. */
  ghost predicate TakenOut(db: Db, d: Db, e: nat)
    requires e < |db.entries|
  {
    && d.entries == db.entries[e := db.entries[e].(voided := true)] && d.now == db.now
    && |d.allocs| == |db.allocs|
    && (forall j :: 0 <= j < |db.allocs| ==>
          d.allocs[j] == db.allocs[j].(released := db.allocs[j].released || Concerns(db, db.allocs[j], e)))
    && |d.invoices| == |db.invoices|
    && (forall i :: 0 <= i < |db.invoices| && db.invoices[i].entry == Some(e) ==> d.invoices[i].status.Voided?)
    && |d.payments| == |db.payments|
    && (forall k :: 0 <= k < |db.payments| ==>
          d.payments[k] == if db.payments[k].status.AwaitingTransfer?
                              && (exists i :: 0 <= i < |db.invoices| && db.invoices[i].entry == Some(e) && db.payments[k].Holds(i))
                           then db.payments[k].(status := Cancelled, lock := None) else db.payments[k])
  }

  lemma {:induction false} VoidTakesOut(db: Db, e: nat)
    requires Inv(db) && e < |db.entries| && !db.entries[e].voided && !HasSettledInvoice(db, e)
    ensures TakenOut(db, VoidedBooks(db, e), e)
  {
    hide EntryOk, InvoiceOk, PaymentsOk, VoidLinked;
    if i :| 0 <= i < |db.invoices| && db.invoices[i].entry == Some(e) {
      assert LinkOk(db, i);
      VoidChargeShape(db, e, i);
      VoidTogetherKeeps(db, i);
      VoidTogetherShape(db, i);
      forall c | 0 <= c < |db.invoices| && db.invoices[c].entry == Some(e) ensures c == i { assert LinkOk(db, c); }
      forall j | 0 <= j < |db.allocs| ensures Concerns(db, db.allocs[j], e) ==> db.allocs[j].released || db.allocs[j].invoice == i {
        assert AllocOk(db, db.allocs[j]);
      }
      forall j | 0 <= j < |db.allocs| && db.allocs[j].invoice == i ensures Concerns(db, db.allocs[j], e) {}
      OneTouched(db.payments, i);
    } else {
      VoidLinkedNone(VoidedEntry(db, e), e, |db.invoices|);
    }
  }

  lemma {:induction false} OneTouched(payments: seq<Payment>, i: nat)
    ensures forall k :: 0 <= k < |payments| ==>
              CancelFor(payments, [i])[k] == if payments[k].status.AwaitingTransfer? && payments[k].Holds(i)
                                             then payments[k].(status := Cancelled, lock := None) else payments[k]
  {
    forall k | 0 <= k < |payments| ensures Touches(payments[k], [i]) <==> payments[k].Holds(i) {
      assert payments[k].Holds(i) ==> payments[k].Holds([i][0]);
    }
  }

  /** Voiding takes the entry off its admin's debt, frees all it paid for, voids the invoice it charged, and then enforces;
      nobody else's numbers move. */
  lemma {:induction false} VoidMoves(db: Db, e: nat, why: bool)
    requires Inv(db) && Void(db, e, why).Ok?
    ensures e < |db.entries| && TakenOut(db, VoidedBooks(db, e), e)
    ensures var d, x := Void(db, e, why).value, db.entries[e];
            && d == Enforce(VoidedBooks(db, e), x.admin)
            && d.entries == db.entries[e := x.(voided := true)]
            && Balance(d, x.admin) == Balance(db, x.admin) - (if x.kind.PaymentIn? then -x.amount else x.amount)
            && WithinDebt(d, x.admin)
            && (forall m :: m != x.admin ==> SameFor(db, d, m))
  {
    hide Inv, Enforce, TakenOut, VoidLinked, Release, WithinDebt;
    var x, b := db.entries[e], VoidedBooks(db, e);
    VoidTakesOut(db, e);
    VoidedBooksOk(db, e);
    EnforceWithin(b, x.admin);
    EnforceRows(b, x.admin);
    TakenBalance(db, b, e);
    SameLedger(b, Enforce(b, x.admin), x.admin);
    forall m | m != x.admin ensures SameFor(db, Enforce(b, x.admin), m) {
      assert SameFor(db, b, m) && SameFor(b, Enforce(b, x.admin), m);
    }
  }

  lemma {:induction false} TakenBalance(db: Db, d: Db, e: nat)
    requires e < |db.entries| && !db.entries[e].voided && TakenOut(db, d, e)
    ensures d.entries == VoidedEntry(db, e).entries
    ensures var x := db.entries[e];
            Balance(d, x.admin) == Balance(db, x.admin) - (if x.kind.PaymentIn? then -x.amount else x.amount)
  {
    VoidedBalance(db, e, db.entries[e].admin);
    SameLedger(VoidedEntry(db, e), d, db.entries[e].admin);
  }
}
