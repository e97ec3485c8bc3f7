// Ledger entries: charging, paying, adjusting, voiding, and the invoices that follow.
module Ledger {
  import opened Wrappers
  import opened Basics
  import opened Records
  import opened Sums
  import opened Books
  import opened Settling
  import opened Pouring
  import opened Stretches
  import opened Enforcement
  import opened Voiding

  // ---- new rows ----

  function PushEntry(db: Db, n: Admin, kind: EntryKind, amount: int): Db {
    db.(entries := db.entries + [Entry(n, kind, amount, db.now, false)])
  }

  function PushInvoice(db: Db, n: Admin, kind: InvoiceKind, amount: int, entry: Option<nat>): Db {
    db.(invoices := db.invoices + [Invoice(n, kind, amount, Unpaid, entry, db.now, 0, Unsettled)])
  }

  /** The invoice of a charge: none for a charge of zero or for an entry that is no charge. */
  ghost function IssueForEntry(db: Db, e: nat, kind: InvoiceKind): Db
    requires e < |db.entries|
  {
    var x := db.entries[e];
    if x.amount <= 0 || !x.IsCharge() then db
    else Enforce(PushInvoice(db, x.admin, kind, x.amount, Some(e)), x.admin)
  }

  /** A charge of zero or more for volume, with its invoice. */
  ghost function ChargeVolume(db: Db, n: Admin, amount: int, kind: InvoiceKind): Db {
    IssueForEntry(PushEntry(db, n, EntryKind.QuotaCharge, amount), |db.entries|, kind)
  }

  // ---- settling with a new entry ----

  datatype SettleMode = Auto | Selected | NoSettle | UnknownSettle

  predicate CanPick(db: Db, n: Admin, id: int) {
    0 <= id < |db.invoices| && IsTarget(db.invoices[id], n)
  }

  function Picked(db: Db, n: Admin, ids: seq<int>): seq<Target>
    requires forall k :: 0 <= k < |ids| ==> CanPick(db, n, ids[k])
  {
    seq(|ids|, k requires 0 <= k < |ids| && CanPick(db, n, ids[k]) => Target(ids[k], db.invoices[ids[k]].Remaining()))
  }

  /** The rows that spend amount from entry e on these targets. */
  function SpendRows(ts: seq<Target>, e: nat, kind: AllocKind, amount: int, auto: bool): seq<Alloc> {
    Pour(ts, [Source(e, kind, amount)], amount, auto)
  }

  /** Spend amount on the admin's unpaid invoices: the chosen ones in that order, else oldest first. */
  ghost function Allocate(db: Db, n: Admin, amount: int, kind: AllocKind, e: nat, ids: seq<int>): Result<Db, Refusal> {
    if amount <= 0 then Ok(db)
    else if ids == [] then
      PourInRange(db, Targets(db, n), [Source(e, kind, amount)], amount, true);
      Ok(Apply(db, SpendRows(Targets(db, n), e, kind, amount, true)))
    else if !forall x :: x in ids ==> CanPick(db, n, x) then Err(Invalid)
    else
      var ts := Picked(db, n, Distinct(ids));
      PourInRange(db, ts, [Source(e, kind, amount)], amount, false);
      Ok(Apply(db, SpendRows(ts, e, kind, amount, false)))
  }

  ghost function ApplyEntry(db: Db, e: nat, mode: SettleMode, ids: seq<int>): Result<Db, Refusal>
    requires e < |db.entries|
  {
    var x := db.entries[e];
    if x.Reducing() then
      if mode.UnknownSettle? || (mode.Selected? && ids == []) then Err(Invalid)
      else if mode.NoSettle? then Ok(Enforce(db, x.admin))
      else
        match Allocate(db, x.admin, x.Size(), KindOf(x), e, if mode.Selected? then ids else [])
        case Err(r) => Err(r)
        case Ok(d) => Ok(Enforce(d, x.admin))
    else if ids != [] then Err(Invalid)
    else Ok(Enforce(db, x.admin))
  }

  // ---- add_entry ----

  datatype Direction = Signed | Increase | Decrease | UnknownDirection

  /** GB of a manual charge and what they cost on that day. */
  datatype Volume = NoVolume | BadVolume | Unpriced | Priced(total: nat)

  datatype NewEntry = NewEntry(
    kind: EntryKind, amount: int, direction: Direction, knownMethod: bool, volume: Volume,
    mode: SettleMode, ids: seq<int>)

  /** The signed amount to book, or the refusal. */
  function Booked(a: NewEntry): Result<int, Refusal> {
    if a.kind.QuotaCharge? then Err(Invalid)
    else if a.kind.Adjustment? && !a.direction.Signed? && (a.direction.UnknownDirection? || a.amount <= 0) then Err(Invalid)
    else if !a.kind.Adjustment? && a.amount <= 0 then Err(Invalid)
    else if a.kind.Adjustment? && a.amount == 0 then Err(Invalid)
    else if a.kind.PaymentIn? && !a.knownMethod then Err(Invalid)
    else if a.kind.ManualCharge? && a.volume.BadVolume? then Err(Invalid)
    else if a.kind.ManualCharge? && a.volume.Unpriced? then Err(NoPrice)
    else if a.kind.ManualCharge? && a.volume.Priced? then Ok(a.volume.total)
    else if a.kind.Adjustment? && a.direction.Decrease? then Ok(-a.amount)
    else Ok(a.amount)
  }

  ghost function AddEntry(db: Db, n: Admin, a: NewEntry): Result<Db, Refusal> {
    match Booked(a)
    case Err(r) => Err(r)
    case Ok(amount) =>
      var d := PushEntry(db, n, a.kind, amount);
      if a.kind.ManualCharge? then Ok(IssueForEntry(d, |db.entries|, ChargeInvoice))
      else ApplyEntry(d, |db.entries|, a.mode, a.ids)
  }

  // ---- void ----

  predicate HasSettledInvoice(db: Db, e: nat) {
    exists i :: 0 <= i < |db.invoices| && db.invoices[i].entry == Some(e)
      && (db.invoices[i].status.Paid? || db.invoices[i].status.Pending?)
  }

  ghost function Void(db: Db, e: nat, reasonGiven: bool): Result<Db, Refusal> {
    if e >= |db.entries| then Err(NotFound)
    else if db.entries[e].voided then Err(Conflict)
    else if !reasonGiven then Err(Invalid)
    else if HasSettledInvoice(db, e) then Err(Conflict)
    else
      var d := VoidLinked(VoidedEntry(db, e), e, |db.invoices|);
      Ok(Enforce(Release(d, FromEntry(e)), db.entries[e].admin))
  }

  // ---- keeping the invariant ----

  lemma {:induction false} PushEntryBooks(db: Db, n: Admin, kind: EntryKind, amount: int)
    requires BooksOk(db)
    requires (kind.PaymentIn? ==> amount > 0) && (kind.Adjustment? ==> amount != 0)
    requires kind.QuotaCharge? || kind.ManualCharge? ==> amount >= 0
    ensures BooksOk(PushEntry(db, n, kind, amount))
  {
    var d := PushEntry(db, n, kind, amount);
    forall e | 0 <= e < |d.entries| ensures EntryOk(d, e) {
      assert e < |db.entries| ==> EntryOk(db, e);
      forall c | 0 <= c < e ensures d.entries[c].created <= d.entries[e].created { assert EntryOk(db, c); }
    }
    forall i | 0 <= i < |d.invoices| ensures InvoiceOk(d, i) && LinkOk(d, i) { assert InvoiceOk(db, i) && LinkOk(db, i); }
    forall j | 0 <= j < |d.allocs| ensures AllocOk(d, d.allocs[j]) { assert AllocOk(db, db.allocs[j]); }
  }

  lemma {:induction false} PushEntryKeeps(db: Db, n: Admin, kind: EntryKind, amount: int)
    requires Inv(db)
    requires (kind.PaymentIn? ==> amount > 0) && (kind.Adjustment? ==> amount != 0)
    requires kind.QuotaCharge? || kind.ManualCharge? ==> amount >= 0
    ensures Inv(PushEntry(db, n, kind, amount))
    ensures forall i :: 0 <= i < |db.invoices| ==> db.invoices[i].entry != Some(|db.entries|)
    ensures Used(db.allocs, |db.entries|) == 0
  {
    PushEntryBooks(db, n, kind, amount);
    CancelKeeps(db, PushEntry(db, n, kind, amount));
    forall i | 0 <= i < |db.invoices| ensures db.invoices[i].entry != Some(|db.entries|) { assert LinkOk(db, i); }
    forall j | 0 <= j < |db.allocs| ensures OnEntry(|db.entries|)(db.allocs[j]) == 0 { assert AllocOk(db, db.allocs[j]); }
    SumZero(db.allocs, OnEntry(|db.entries|));
  }

  lemma {:induction false} PushEntryBalance(db: Db, n: Admin, kind: EntryKind, amount: int, m: Admin)
    ensures var x := Entry(n, kind, amount, db.now, false);
            Balance(PushEntry(db, n, kind, amount), m) == Balance(db, m) + if m == n then x.Signed() else 0
  {
    SumPush(db.entries, Entry(n, kind, amount, db.now, false), BalanceOf(m));
  }

  lemma {:induction false} PushInvoiceKeeps(db: Db, n: Admin, kind: InvoiceKind, amount: int, entry: Option<nat>)
    requires Inv(db) && amount > 0
    requires entry.Some? ==>
      && entry.value < |db.entries|
      && db.entries[entry.value].IsCharge() && !db.entries[entry.value].voided
      && db.entries[entry.value].admin == n && db.entries[entry.value].amount == amount
      && forall i :: 0 <= i < |db.invoices| ==> db.invoices[i].entry != entry
    ensures Inv(PushInvoice(db, n, kind, amount, entry))
  {
    var d, k := PushInvoice(db, n, kind, amount, entry), |db.invoices|;
    forall j | 0 <= j < |db.allocs| ensures OnInvoice(k)(db.allocs[j]) == 0 && db.allocs[j].invoice != k {
      assert AllocOk(db, db.allocs[j]);
    }
    SumZero(db.allocs, OnInvoice(k));
    assert Kinds(db.allocs, k) == {};
    forall i | 0 <= i < |d.invoices| ensures InvoiceOk(d, i) && LinkOk(d, i) {
      assert i < k ==> InvoiceOk(db, i) && LinkOk(db, i);
      forall c | 0 <= c < i ensures d.invoices[c].created <= d.invoices[i].created { assert InvoiceOk(db, c); }
    }
    forall e | 0 <= e < |d.entries| ensures EntryOk(d, e) { assert EntryOk(db, e); }
    forall j | 0 <= j < |d.allocs| ensures AllocOk(d, d.allocs[j]) { assert AllocOk(db, db.allocs[j]); }
    CancelKeeps(db, d);
  }

  lemma {:induction false} PushInvoiceTotals(db: Db, n: Admin, kind: InvoiceKind, amount: int, entry: Option<nat>, m: Admin)
    requires amount > 0
    ensures var d, x := PushInvoice(db, n, kind, amount, entry), if m == n then amount else 0;
            && OpenTotal(d, m) == OpenTotal(db, m) + x
            && UnpaidTotal(d, m) == UnpaidTotal(db, m) + x
            && ReviewTotal(d, m) == ReviewTotal(db, m)
  {
    var v := Invoice(n, kind, amount, Unpaid, entry, db.now, 0, Unsettled);
    SumPush(db.invoices, v, OpenOf(m));
    SumPush(db.invoices, v, UnpaidOf(m));
    SumPush(db.invoices, v, ReviewOf(m));
  }

  // ---- the debt rule over operations ----

  /** The debt rule, as far as enforce can keep it: invoices under review are never touched. */
  ghost predicate WithinDebt(db: Db, n: Admin) {
    OpenTotal(db, n) <= Max(ReviewTotal(db, n), Debt(db, n))
  }

  /** Nothing of admin m moved. */
  ghost predicate SameFor(db: Db, d: Db, m: Admin) {
    && OpenTotal(d, m) == OpenTotal(db, m)
    && ReviewTotal(d, m) == ReviewTotal(db, m)
    && Balance(d, m) == Balance(db, m)
  }

  /** The invariant and every admin's debt rule survive. */
  ghost predicate Keeps(db: Db, d: Db) {
    Inv(d) && forall m :: WithinDebt(db, m) ==> WithinDebt(d, m)
  }

  lemma {:induction false} EnforceWithin(db: Db, n: Admin)
    requires Inv(db)
    ensures Inv(Enforce(db, n))
    ensures WithinDebt(Enforce(db, n), n)
    ensures forall m :: m != n ==> SameFor(db, Enforce(db, n), m)
  {
    EnforceExact(db, n);
    OpenSplits(db.invoices, n);
    forall m | m != n ensures SameFor(db, Enforce(db, n), m) {
      OthersKeep(db, Enforce(db, n), n, m);
    }
  }

  /** An operation that only moves n's numbers and then enforces keeps everyone's debt rule. */
  lemma {:induction false} EnforceAfter(db: Db, d: Db, n: Admin)
    requires Inv(d) && forall m :: m != n ==> SameFor(db, d, m)
    ensures Keeps(db, Enforce(d, n))
  {
    EnforceWithin(d, n);
    forall m | WithinDebt(db, m) ensures WithinDebt(Enforce(d, n), m) {
      if m != n {
        assert SameFor(db, d, m) && SameFor(d, Enforce(d, n), m);
      }
    }
  }

  lemma {:induction false} IssueForEntryKeeps(db: Db, e: nat, kind: InvoiceKind)
    requires Inv(db) && e < |db.entries| && !db.entries[e].voided
    requires forall i :: 0 <= i < |db.invoices| ==> db.invoices[i].entry != Some(e)
    ensures Inv(IssueForEntry(db, e, kind))
    ensures forall m :: m != db.entries[e].admin ==> SameFor(db, IssueForEntry(db, e, kind), m)
    ensures db.entries[e].IsCharge() && db.entries[e].amount > 0 ==> WithinDebt(IssueForEntry(db, e, kind), db.entries[e].admin)
    ensures !(db.entries[e].IsCharge() && db.entries[e].amount > 0) ==> IssueForEntry(db, e, kind) == db
  {
    var x := db.entries[e];
    if x.amount > 0 && x.IsCharge() {
      var d := PushInvoice(db, x.admin, kind, x.amount, Some(e));
      PushInvoiceKeeps(db, x.admin, kind, x.amount, Some(e));
      EnforceWithin(d, x.admin);
      forall m | m != x.admin ensures SameFor(db, Enforce(d, x.admin), m) {
        PushInvoiceTotals(db, x.admin, kind, x.amount, Some(e), m);
        assert SameFor(d, Enforce(d, x.admin), m);
      }
    }
  }

  /** A new charge, whatever its amount, keeps the invariant and every debt rule. */
  lemma {:induction false} ChargeKeeps(db: Db, n: Admin, charge: EntryKind, amount: int, kind: InvoiceKind)
    requires Inv(db) && (charge.QuotaCharge? || charge.ManualCharge?) && amount >= 0
    ensures Keeps(db, IssueForEntry(PushEntry(db, n, charge, amount), |db.entries|, kind))
  {
    hide Inv;
    hide IssueForEntry;
    var d := PushEntry(db, n, charge, amount);
    PushEntryKeeps(db, n, charge, amount);
    IssueForEntryKeeps(d, |db.entries|, kind);
    var d' := IssueForEntry(d, |db.entries|, kind);
    assert amount > 0 ==> WithinDebt(d', n);
    assert amount == 0 ==> d' == d;
    forall m | WithinDebt(db, m) ensures WithinDebt(d', m) {
      PushEntryBalance(db, n, charge, amount, m);
      assert SameFor(db, d, m) || (m == n && amount > 0);
      assert m != n ==> SameFor(d, d', m);
    }
  }

  // ---- spending an entry ----

  ghost predicate Spendable(db: Db, n: Admin, e: nat) {
    e < |db.entries| && db.entries[e].admin == n && !db.entries[e].voided && db.entries[e].Reducing()
  }

  lemma {:induction false} PickedOk(db: Db, n: Admin, ids: seq<int>)
    requires forall k :: 0 <= k < |ids| ==> CanPick(db, n, ids[k])
    requires forall k, l :: 0 <= k < l < |ids| ==> ids[k] != ids[l]
    ensures TargetsOk(db, n, Picked(db, n, ids))
  {
    var ts := Picked(db, n, ids);
    forall k | 0 <= k < |ts|
      ensures ts[k].id < |db.invoices| && db.invoices[ts[k].id].admin == n
      ensures ts[k].rem == db.invoices[ts[k].id].Remaining()
      ensures db.invoices[ts[k].id].status.Unpaid?
    {
      assert CanPick(db, n, ids[k]);
    }
  }

  lemma {:induction false} SpendKeeps(db: Db, n: Admin, ts: seq<Target>, e: nat, kind: AllocKind, amount: int, auto: bool)
    requires Inv(db) && TargetsOk(db, n, ts) && Spendable(db, n, e) && amount > 0
    ensures InRange(db, SpendRows(ts, e, kind, amount, auto)) && Fits(db, SpendRows(ts, e, kind, amount, auto), n)
    ensures var d := Apply(db, SpendRows(ts, e, kind, amount, auto));
            && Inv(d) && OnlySettles(db, d, n)
            && UnpaidTotal(d, n) == UnpaidTotal(db, n) - Min(amount, Sum(ts, RemOf()))
            && ReviewTotal(d, n) == ReviewTotal(db, n)
    ensures Total(SpendRows(ts, e, kind, amount, auto)) == Min(amount, Sum(ts, RemOf()))
  {
    var ss := [Source(e, kind, amount)];
    PourFits(db, n, ts, ss, amount, auto);
    PourTotal(ts, ss, amount, auto);
    ApplyKeeps(db, SpendRows(ts, e, kind, amount, auto), n);
  }

  /** Exactly what each target receives, in the order they are in. */
  lemma {:induction false} SpendPays(db: Db, n: Admin, ts: seq<Target>, e: nat, kind: AllocKind, amount: int, auto: bool, k: nat)
    requires Inv(db) && TargetsOk(db, n, ts) && Spendable(db, n, e) && amount > 0 && k < |ts|
    ensures InRange(db, SpendRows(ts, e, kind, amount, auto))
    ensures Apply(db, SpendRows(ts, e, kind, amount, auto)).invoices[ts[k].id].paid
         == db.invoices[ts[k].id].paid + Reached(ts, amount, k)
  {
    hide Inv;
    var ss, rows := [Source(e, kind, amount)], SpendRows(ts, e, kind, amount, auto);
    SpendKeeps(db, n, ts, e, kind, amount, auto);
    SpendPaid(db, n, rows, ts[k].id);
    PourInvoice(ts, ss, amount, auto, k);
  }

  lemma {:induction false} SpendPaid(db: Db, n: Admin, rows: seq<Alloc>, i: nat)
    requires Inv(db) && InRange(db, rows) && Fits(db, rows, n) && i < |db.invoices|
    ensures Apply(db, rows).invoices[i].paid == db.invoices[i].paid + Settled(rows, i)
  {
    AddAllPaid(db, rows, n, i);
  }

  /** The invoices an amount is spent on, in order: the chosen ones, else all unpaid ones, oldest first. */
  function SpentOn(db: Db, n: Admin, ids: seq<int>): seq<Target>
    requires forall x :: x in ids ==> CanPick(db, n, x)
  {
    if ids == [] then Targets(db, n) else Picked(db, n, Distinct(ids))
  }

  /** Spending an amount takes it, as far as the chosen invoices can take it, off what the admin has unpaid: each of
      them, in order, receives what of the amount reaches its own piece of the line. */
  lemma {:induction false} AllocateKeeps(db: Db, n: Admin, amount: int, kind: AllocKind, e: nat, ids: seq<int>)
    requires Inv(db) && Spendable(db, n, e)
    requires Allocate(db, n, amount, kind, e, ids).Ok?
    ensures Inv(Allocate(db, n, amount, kind, e, ids).value)
    ensures OnlySettles(db, Allocate(db, n, amount, kind, e, ids).value, n)
    ensures amount <= 0 ==> Allocate(db, n, amount, kind, e, ids).value == db
    ensures amount > 0 ==>
              (forall x :: x in ids ==> CanPick(db, n, x))
              && var d, ts := Allocate(db, n, amount, kind, e, ids).value, SpentOn(db, n, ids);
                 && UnpaidTotal(d, n) == UnpaidTotal(db, n) - Min(amount, Sum(ts, RemOf()))
                 && (ids == [] ==> Sum(ts, RemOf()) == UnpaidTotal(db, n))
                 && (forall k :: 0 <= k < |ts| ==>
                       ts[k].id < |db.invoices|
                       && d.invoices[ts[k].id].paid == db.invoices[ts[k].id].paid + Reached(ts, amount, k))
  {
    if amount > 0 {
      TargetsFit(db, n);
      if ids != [] {
        PickedOk(db, n, Distinct(ids));
      }
      SpendKeeps(db, n, SpentOn(db, n, ids), e, kind, amount, ids == []);
      PayAllTargets(db, n, SpentOn(db, n, ids), e, kind, amount, ids == []);
    }
  }

  lemma {:induction false} PayAllTargets(db: Db, n: Admin, ts: seq<Target>, e: nat, kind: AllocKind, amount: int, auto: bool)
    requires Inv(db) && TargetsOk(db, n, ts) && Spendable(db, n, e) && amount > 0
    ensures InRange(db, SpendRows(ts, e, kind, amount, auto))
    ensures forall k :: 0 <= k < |ts| ==>
              ts[k].id < |db.invoices|
              && Apply(db, SpendRows(ts, e, kind, amount, auto)).invoices[ts[k].id].paid
                 == db.invoices[ts[k].id].paid + Reached(ts, amount, k)
  {
    hide Inv;
    hide Apply;
    SpendKeeps(db, n, ts, e, kind, amount, auto);
    forall k | 0 <= k < |ts|
      ensures Apply(db, SpendRows(ts, e, kind, amount, auto)).invoices[ts[k].id].paid
           == db.invoices[ts[k].id].paid + Reached(ts, amount, k)
    {
      SpendPays(db, n, ts, e, kind, amount, auto, k);
    }
  }

  lemma {:induction false} ApplyEntryKeeps(db: Db, d: Db, e: nat, mode: SettleMode, ids: seq<int>)
    requires Inv(d) && e < |d.entries| && !d.entries[e].voided
    requires forall m :: m != d.entries[e].admin ==> SameFor(db, d, m)
    requires ApplyEntry(d, e, mode, ids).Ok?
    ensures Keeps(db, ApplyEntry(d, e, mode, ids).value)
  {
    var x := d.entries[e];
    if x.Reducing() && !mode.NoSettle? {
      var ids' := if mode.Selected? then ids else [];
      AllocateKeeps(d, x.admin, x.Size(), KindOf(x), e, ids');
      var d' := Allocate(d, x.admin, x.Size(), KindOf(x), e, ids').value;
      forall m | m != x.admin ensures SameFor(db, d', m) {
        OthersKeep(d, d', x.admin, m);
        assert SameFor(db, d, m);
      }
      EnforceAfter(db, d', x.admin);
    } else {
      EnforceAfter(db, d, x.admin);
    }
  }

  /** Every accepted ledger entry keeps the invariant and every admin's debt rule. */
  lemma {:induction false} AddEntryKeeps(db: Db, n: Admin, a: NewEntry)
    requires Inv(db) && AddEntry(db, n, a).Ok?
    ensures Keeps(db, AddEntry(db, n, a).value)
  {
    var amount := Booked(a).value;
    if a.kind.ManualCharge? {
      ChargeKeeps(db, n, a.kind, amount, ChargeInvoice);
    } else {
      var d := PushEntry(db, n, a.kind, amount);
      PushEntryKeeps(db, n, a.kind, amount);
      forall m | m != n ensures SameFor(db, d, m) {
        PushEntryBalance(db, n, a.kind, amount, m);
      }
      ApplyEntryKeeps(db, d, |db.entries|, a.mode, a.ids);
    }
  }

  // ---- voiding ----

  /** Voiding entry e, with the invoice it charged, up to the final enforce. */
  ghost function VoidedBooks(db: Db, e: nat): Db
    requires e < |db.entries|
  {
    Release(VoidLinked(VoidedEntry(db, e), e, |db.invoices|), FromEntry(e))
  }

  lemma {:induction false} VoidedBooksOk(db: Db, e: nat)
    requires Inv(db) && e < |db.entries| && !db.entries[e].voided && !HasSettledInvoice(db, e)
    ensures Inv(VoidedBooks(db, e))
    ensures forall m :: m != db.entries[e].admin ==> SameFor(db, VoidedBooks(db, e), m)
  {
    var d := VoidedBooks(db, e);
    if i :| 0 <= i < |db.invoices| && db.invoices[i].entry == Some(e) {
      assert LinkOk(db, i);
      assert db.invoices[i].status.Unpaid?;
      VoidChargeShape(db, e, i);
      VoidTogetherKeeps(db, i);
      BooksCounted(db);
      VoidInvoiceRowShape(db, i);
      forall m | m != db.entries[e].admin ensures SameFor(db, d, m) {
        TotalsSame(db.invoices, d.invoices, m);
        VoidedBalance(db, e, m);
      }
    } else {
      VoidLinkedNone(VoidedEntry(db, e), e, |db.invoices|);
      VoidFreeEntry(db, e);
    }
  }

  /** Voiding an entry no invoice was issued for. */
  lemma {:induction false} VoidFreeEntry(db: Db, e: nat)
    requires Inv(db) && e < |db.entries| && !db.entries[e].voided
    requires forall i :: 0 <= i < |db.invoices| ==> db.invoices[i].entry != Some(e)
    ensures Inv(Release(VoidedEntry(db, e), FromEntry(e)))
    ensures forall m :: m != db.entries[e].admin ==> SameFor(db, Release(VoidedEntry(db, e), FromEntry(e)), m)
  {
    var d := Release(VoidedEntry(db, e), FromEntry(e));
    ReleaseEntryKeeps(db, e);
    forall m | m != db.entries[e].admin ensures SameFor(db, d, m) {
      forall i | 0 <= i < |db.invoices| && db.invoices[i].admin == m ensures d.invoices[i] == db.invoices[i] {
        forall j | 0 <= j < |db.allocs| && Matches(db.allocs[j], FromEntry(e)) ensures db.allocs[j].invoice != i {
          assert AllocOk(db, db.allocs[j]);
        }
        forall j | 0 <= j < |db.allocs| ensures db.allocs[j].amount > 0 { assert AllocOk(db, db.allocs[j]); }
        ReleaseSums(db.allocs, FromEntry(e), i);
        assert InvoiceOk(db, i);
      }
      TotalsSame(db.invoices, d.invoices, m);
      VoidedBalance(db, e, m);
    }
  }

  /** Every accepted void keeps the invariant and every admin's debt rule. */
  lemma {:induction false} VoidKeeps(db: Db, e: nat, reasonGiven: bool)
    requires Inv(db) && Void(db, e, reasonGiven).Ok?
    ensures Keeps(db, Void(db, e, reasonGiven).value)
  {
    VoidedBooksOk(db, e);
    EnforceAfter(db, VoidedBooks(db, e), db.entries[e].admin);
  }
}
