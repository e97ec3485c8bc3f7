// No entry is spent twice: what the active allocations take from an entry stays within its amount over every run,
// except that the entries of an approval may be exceeded by the shortfall it recorded.
module EntryUse {
  import opened Wrappers
  import opened Basics
  import opened Records
  import opened Sums
  import opened Books
  import opened Settling
  import opened Pouring
  import opened Stretches
  import opened Enforcement
  import opened Voiding
  import opened Ledger
  import opened Billing
  import opened Payments
  import opened Approving
  import opened PayAll
  import opened Runs
  import opened Spending

  /** An entry's amount without its sign. */
  function Worth(x: Entry): int { if x.amount < 0 then -x.amount else x.amount }

  /** The entries of db keep their amounts and are not used further than that; the new ones at most by slack beyond it. */
  ghost predicate Within(db: Db, d: Db, slack: int) {
    && |db.entries| <= |d.entries|
    && (forall e: nat :: e < |db.entries| ==>
          Worth(d.entries[e]) == Worth(db.entries[e]) && Used(d.allocs, e) <= Max(Used(db.allocs, e), Worth(db.entries[e])))
    && (forall e: nat :: |db.entries| <= e < |d.entries| ==> Used(d.allocs, e) <= Worth(d.entries[e]) + slack)
  }

  lemma {:induction false} WithinTwice(a: Db, b: Db, c: Db, s: nat, t: nat)
    requires Within(a, b, s) && Within(b, c, t)
    ensures Within(a, c, s + t)
  {
    hide Used, Worth;
    forall e: nat | e < |a.entries|
      ensures Worth(c.entries[e]) == Worth(a.entries[e]) && Used(c.allocs, e) <= Max(Used(a.allocs, e), Worth(a.entries[e]))
    {
      assert Used(b.allocs, e) <= Max(Used(a.allocs, e), Worth(a.entries[e]));
    }
    forall e: nat | |a.entries| <= e < |c.entries| ensures Used(c.allocs, e) <= Worth(c.entries[e]) + s + t {
      if e < |b.entries| {
        WorthNonNegative(c.entries[e]);
        assert Used(b.allocs, e) <= Worth(b.entries[e]) + s;
      }
    }
  }

  lemma {:induction false} WorthNonNegative(x: Entry)
    ensures Worth(x) == x.Size() >= 0
  {
  }

  lemma {:induction false} SameWithin(db: Db, d: Db)
    requires d.entries == db.entries && d.allocs == db.allocs
    ensures Within(db, d, 0)
  {
  }

  lemma {:induction false} EnforceWithin(db: Db, n: Admin)
    ensures Within(db, Enforce(db, n), 0)
  {
    hide Enforce, Used;
    EnforceRows(db, n);
    forall e: nat | e < |db.entries| ensures Used(Enforce(db, n).allocs, e) <= Max(Used(db.allocs, e), Worth(db.entries[e])) {
      EnforceUses(db, n, e);
      WorthNonNegative(db.entries[e]);
    }
  }

  // ---- charges and entries ----

  lemma {:induction false} PushWithin(db: Db, n: Admin, kind: EntryKind, amount: int)
    requires Inv(db)
    ensures Within(db, PushEntry(db, n, kind, amount), 0)
    ensures Used(db.allocs, |db.entries|) == 0
  {
    forall j | 0 <= j < |db.allocs| ensures OnEntry(|db.entries|)(db.allocs[j]) == 0 { assert AllocOk(db, db.allocs[j]); }
    SumZero(db.allocs, OnEntry(|db.entries|));
  }

  lemma {:induction false} IssueWithin(db: Db, e: nat, kind: InvoiceKind)
    requires e < |db.entries|
    ensures Within(db, IssueForEntry(db, e, kind), 0)
  {
    hide Enforce;
    var x := db.entries[e];
    var d := PushInvoice(db, x.admin, kind, x.amount, Some(e));
    SameWithin(db, db);
    SameWithin(db, d);
    EnforceWithin(d, x.admin);
    WithinTwice(db, d, Enforce(d, x.admin), 0, 0);
  }

  /** Spending an amount on some invoices takes at most that from the entry, and nothing from any other. */
  lemma {:induction false} SpendUses(db: Db, ts: seq<Target>, e: nat, kind: AllocKind, amount: nat, auto: bool)
    requires forall k :: 0 <= k < |ts| ==> ts[k].rem >= 0
    requires forall k, l :: 0 <= k < l < |ts| ==> ts[k].id != ts[l].id
    requires InRange(db, SpendRows(ts, e, kind, amount, auto))
    ensures var d := Apply(db, SpendRows(ts, e, kind, amount, auto));
            && d.entries == db.entries
            && Used(d.allocs, e) <= Used(db.allocs, e) + amount
            && (forall c: nat :: c != e ==> Used(d.allocs, c) == Used(db.allocs, c))
  {
    var ss, rows := [Source(e, kind, amount)], SpendRows(ts, e, kind, amount, auto);
    AddAllStays(db, rows);
    PourDrawn(ts, ss, amount, auto);
    forall c: nat ensures Used(db.allocs + rows, c) <= Used(db.allocs, c) + if c == e then amount else 0
      ensures c != e ==> Used(db.allocs + rows, c) == Used(db.allocs, c)
    {
      UsedGrows(db.allocs, rows, ss, auto, c);
      PourSource(ts, ss, amount, auto, 0);
    }
  }

  lemma {:induction false} AllocateUses(db: Db, n: Admin, kind: AllocKind, e: nat, ids: seq<int>)
    requires e < |db.entries| && Used(db.allocs, e) == 0
    requires Allocate(db, n, db.entries[e].Size(), kind, e, ids).Ok?
    ensures Within(db, Allocate(db, n, db.entries[e].Size(), kind, e, ids).value, 0)
  {
    hide Apply, Pour, Used;
    var amount := db.entries[e].Size();
    SameWithin(db, db);
    if amount > 0 && ids == [] {
      PourInRange(db, Targets(db, n), [Source(e, kind, amount)], amount, true);
      SpendUses(db, Targets(db, n), e, kind, amount, true);
    } else if amount > 0 {
      var ts := Picked(db, n, Distinct(ids));
      PourInRange(db, ts, [Source(e, kind, amount)], amount, false);
      SpendUses(db, ts, e, kind, amount, false);
    }
  }

  lemma {:induction false} BookWithin(db: Db, n: Admin, a: NewEntry)
    requires Inv(db) && AddEntry(db, n, a).Ok?
    ensures Within(db, AddEntry(db, n, a).value, 0)
  {
    hide Inv, Enforce, Allocate, IssueForEntry, Used;
    var d, e := PushEntry(db, n, a.kind, Booked(a).value), |db.entries|;
    PushWithin(db, n, a.kind, Booked(a).value);
    if a.kind.ManualCharge? {
      IssueWithin(d, e, ChargeInvoice);
      WithinTwice(db, d, IssueForEntry(d, e, ChargeInvoice), 0, 0);
    } else {
      EnforceWithin(d, n);
      WithinTwice(db, d, Enforce(d, n), 0, 0);
      if d.entries[e].Reducing() && !a.mode.NoSettle? {
        var ids := if a.mode.Selected? then a.ids else [];
        AllocateUses(d, n, KindOf(d.entries[e]), e, ids);
        var d' := Allocate(d, n, d.entries[e].Size(), KindOf(d.entries[e]), e, ids).value;
        EnforceWithin(d', n);
        WithinTwice(db, d, d', 0, 0);
        WithinTwice(db, d', Enforce(d', n), 0, 0);
      }
    }
  }

  // ---- voiding ----

  predicate Positive(allocs: seq<Alloc>) {
    forall j :: 0 <= j < |allocs| ==> allocs[j].amount > 0
  }

  /** Releasing rows only frees. */
  lemma {:induction false} ReleaseFrees(allocs: seq<Alloc>, w: Which)
    requires Positive(allocs)
    ensures Positive(ReleaseRows(allocs, w))
    ensures forall e: nat :: Used(ReleaseRows(allocs, w), e) <= Used(allocs, e)
  {
    forall e: nat ensures Used(ReleaseRows(allocs, w), e) <= Used(allocs, e) {
      SumAtMost(ReleaseRows(allocs, w), OnEntry(e), allocs, OnEntry(e));
    }
  }

  lemma {:induction false} LinkedWithin(db: Db, e: nat, k: nat)
    requires Positive(db.allocs) && k <= |db.invoices|
    ensures Positive(VoidLinked(db, e, k).allocs) && Within(db, VoidLinked(db, e, k), 0)
  {
    hide Used, ReleaseRows, Positive, Worth;
    SameWithin(db, db);
    if k > 0 {
      var d := VoidLinked(db, e, k - 1);
      LinkedWithin(db, e, k - 1);
      ReleaseFrees(d.allocs, OfInvoice(k - 1));
      WithinTwice(db, d, VoidInvoiceRow(d, k - 1), 0, 0);
    }
  }

  lemma {:induction false} AllPositive(db: Db)
    requires Inv(db)
    ensures Positive(db.allocs)
  {
    BooksCounted(db);
  }

  lemma {:induction false} VoidWithin(db: Db, e: nat, why: bool)
    requires Inv(db) && Void(db, e, why).Ok?
    ensures Within(db, Void(db, e, why).value, 0)
  {
    hide Inv, Enforce, VoidLinked, Used, Positive;
    var d0 := VoidedEntry(db, e);
    AllPositive(db);
    LinkedWithin(d0, e, |db.invoices|);
    var d1 := VoidLinked(d0, e, |db.invoices|);
    ReleaseFrees(d1.allocs, FromEntry(e));
    var d2 := Release(d1, FromEntry(e));
    assert Within(db, d0, 0) && Within(d1, d2, 0);
    WithinTwice(db, d0, d1, 0, 0);
    WithinTwice(db, d1, d2, 0, 0);
    EnforceWithin(d2, db.entries[e].admin);
    WithinTwice(db, d2, Enforce(d2, db.entries[e].admin), 0, 0);
  }

  lemma {:induction false} VoidInvoiceWithin(db: Db, i: nat, why: bool)
    requires Inv(db) && VoidInvoice(db, i, why).Ok?
    ensures Within(db, VoidInvoice(db, i, why).value, 0)
  {
    hide Inv, Enforce, Used, Positive;
    AllPositive(db);
    ReleaseFrees(db.allocs, OfInvoice(i));
    var d := VoidTogether(db, i);
    assert Within(db, d, 0);
    EnforceWithin(d, db.invoices[i].admin);
    WithinTwice(db, d, Enforce(d, db.invoices[i].admin), 0, 0);
  }

  // ---- the rest but approvals ----

  lemma {:induction false} OutsideWithin(db: Db, i: nat)
    requires SettleOutside(db, i).Ok?
    ensures Within(db, SettleOutside(db, i).value, 0)
  {
    var row := Alloc(i, Outside, db.invoices[i].Remaining(), None, None, false, false);
    AddAllStays(db, [row]);
    forall e: nat ensures Used(db.allocs + [row], e) == Used(db.allocs, e) { SumPush(db.allocs, row, OnEntry(e)); }
  }

  lemma {:induction false} GatherSame(db: Db, names: seq<Admin>, onPanel: set<Admin>, k: nat)
    requires k <= |names| && GatherUpTo(db, names, onPanel, k).Ok?
    ensures var d := GatherUpTo(db, names, onPanel, k).value.db; d.entries == db.entries && d.allocs == db.allocs
  {
    hide OldBalance;
    if k > 0 {
      GatherSame(db, names, onPanel, k - 1);
    }
  }

  lemma {:induction false} GroupWithin(db: Db, o: Order)
    requires PayEverything(db, o).Created?
    ensures Within(db, PayEverything(db, o).db, 0)
  {
    hide GatherUpTo, Payable, Used;
    GatherSame(db, o.names, o.onPanel, |o.names|);
    SameWithin(db, PayEverything(db, o).db);
  }

  // ---- approvals ----

  /** Entry e is what of the money reached the i-th admin. */
  ghost predicate BookedFor(b: Bookings, items: seq<Item>, names: seq<Admin>, money: int, e: nat, i: nat) {
    && i < |names| && names[i] in b.entryOf && b.entryOf[names[i]] == e && e < |b.db.entries|
    && b.db.entries[e].amount == Kept(b.db.invoices, items, names, money, i) > 0
  }

  ghost predicate Owned(b: Bookings, items: seq<Item>, names: seq<Admin>, money: int, e: nat, k: nat) {
    exists i: nat :: i < k && BookedFor(b, items, names, money, e, i)
  }

  /** Among the first k admins, the entry of each that got money is worth what reached it. */
  ghost predicate BookedAs(db: Db, b: Bookings, items: seq<Item>, names: seq<Admin>, money: int, k: nat)
    requires k <= |names|
  {
    && |db.entries| <= |b.db.entries| && b.db.entries[..|db.entries|] == db.entries
    && (forall n :: n in b.entryOf ==> n in names[..k] && |db.entries| <= b.entryOf[n] < |b.db.entries|)
    && (forall e: nat :: |db.entries| <= e < |b.db.entries| ==> Owned(b, items, names, money, e, k))
  }

  lemma {:induction false} BookedSo(db: Db, items: seq<Item>, names: seq<Admin>, money: int, k: nat)
    requires k <= |names| && Increasing(names)
    ensures BookedAs(db, BookUpTo(db, items, names, money, k), items, names, money, k)
  {
    hide Kept, BookedFor;
    if k > 0 {
      BookedSo(db, items, names, money, k - 1);
      var b0, b := BookUpTo(db, items, names, money, k - 1), BookUpTo(db, items, names, money, k);
      assert names[..k] == names[..k - 1] + [names[k - 1]];
      forall e: nat | |db.entries| <= e < |b.db.entries| ensures Owned(b, items, names, money, e, k) {
        if e < |b0.db.entries| {
          assert Owned(b0, items, names, money, e, k - 1);
          var i: nat :| i < k - 1 && BookedFor(b0, items, names, money, e, i);
          BookedLater(db, items, names, money, k, e, i);
        } else {
          BookedLast(db, items, names, money, k);
        }
      }
    }
  }

  lemma {:induction false} BookedLater(db: Db, items: seq<Item>, names: seq<Admin>, money: int, k: nat, e: nat, i: nat)
    requires i < k - 1 < |names| && Increasing(names) && BookedFor(BookUpTo(db, items, names, money, k - 1), items, names, money, e, i)
    ensures BookedFor(BookUpTo(db, items, names, money, k), items, names, money, e, i)
  {
    hide Kept;
    assert names[i] < names[k - 1];
    BookShape(db, items, names, money, k - 1);
  }

  lemma {:induction false} BookedLast(db: Db, items: seq<Item>, names: seq<Admin>, money: int, k: nat)
    requires 0 < k <= |names|
    ensures var b0, b := BookUpTo(db, items, names, money, k - 1), BookUpTo(db, items, names, money, k);
            |b.db.entries| > |b0.db.entries| ==> BookedFor(b, items, names, money, |b0.db.entries|, k - 1)
  {
    hide Kept;
    BookShape(db, items, names, money, k - 1);
  }

  /** The items of admin n draw on its own entry, at most what they name; nothing draws on any other entry. */
  lemma {:induction false} SettleUses(db: Db, items: seq<Item>, entryOf: map<Admin, nat>, k: nat, j: nat, n: Admin)
    requires ItemsInRange(db, items) && j <= |items| && EntriesFit(db, entryOf)
    requires forall l :: 0 <= l < |items| ==> items[l].amount >= 0
    ensures var d := SettleUpTo(db, items, entryOf, k, j);
            && d.entries == db.entries
            && (forall i :: 0 <= i < |db.invoices| ==> d.invoices[i].admin == db.invoices[i].admin)
            && (n in entryOf ==> Used(d.allocs, entryOf[n]) <= Used(db.allocs, entryOf[n]) + Sum(items[..j], OwedBy(db.invoices, n)))
            && (forall e: nat :: e !in entryOf.Values ==> Used(d.allocs, e) == Used(db.allocs, e))
  {
    hide Sum, SettleItem, Used;
    if j == 0 {
      assert items[..0] == [];
      NoItem(OwedBy(db.invoices, n));
    } else {
      SettleUses(db, items, entryOf, k, j - 1, n);
      var d, it := SettleUpTo(db, items, entryOf, k, j - 1), items[j - 1];
      RowUses(d, it, entryOf, k, n);
      assert items[..j] == items[..j - 1] + [it];
      SumPush(items[..j - 1], it, OwedBy(db.invoices, n));
    }
  }

  lemma {:induction false} NoItem(f: Item -> int)
    ensures Sum([], f) == 0
  {
  }

  lemma {:induction false} RowUses(db: Db, it: Item, entryOf: map<Admin, nat>, k: nat, n: Admin)
    requires it.invoice < |db.invoices| && EntriesFit(db, entryOf) && it.amount >= 0
    ensures var d := SettleItem(db, it, entryOf, k);
            && d.entries == db.entries && |d.invoices| == |db.invoices|
            && (forall i :: 0 <= i < |db.invoices| ==> d.invoices[i].admin == db.invoices[i].admin)
            && (n in entryOf ==> Used(d.allocs, entryOf[n]) <= Used(db.allocs, entryOf[n]) + OwedBy(db.invoices, n)(it))
            && (forall e: nat :: e !in entryOf.Values ==> Used(d.allocs, e) == Used(db.allocs, e))
  {
    var row := ItemRow(db, it, entryOf, k);
    if row.amount > 0 {
      forall e: nat ensures Used(db.allocs + [row], e) == Used(db.allocs, e) + OnEntry(e)(row) { SumPush(db.allocs, row, OnEntry(e)); }
    }
  }

  /** Who got less than it owes got at most the shortfall less. */
  lemma {:induction false} KeptShort(invoices: seq<Invoice>, items: seq<Item>, names: seq<Admin>, money: int, i: nat)
    requires i < |names| && Increasing(names)
    requires forall j :: 0 <= j < |items| ==>
               items[j].amount > 0 && items[j].invoice < |invoices| && invoices[items[j].invoice].admin in names
    ensures Kept(invoices, items, names, money, i) > 0 ==>
              Due(invoices, items, names[i]) - Kept(invoices, items, names, money, i) <= Max(0, Sum(items, ItemAmount()) - money)
  {
    hide Sum, Due;
    var f := DueOf(invoices, items);
    forall n ensures f(n) >= 0 { DueNonNegative(invoices, items, n); }
    DuesCover(invoices, items, names);
    DuePush(names, f, i);
    assert names == names[..i + 1] + names[i + 1..];
    SumConcat(names[..i + 1], names[i + 1..], f);
    SumMember(names[i + 1..], f);
  }

  lemma {:induction false} OldUnused(db: Db, b: Bookings, e: nat)
    requires e < |db.entries| && forall n :: n in b.entryOf ==> |db.entries| <= b.entryOf[n]
    ensures e !in b.entryOf.Values
  {
    forall n | n in b.entryOf ensures b.entryOf[n] != e {}
  }

  /** What the approval recorded as missing. */
  function Missing(p: Payment): int {
    match p.shortfall case Some(s) => s case None => 0
  }

  lemma {:induction false} SettledWithin(db: Db, k: nat, deposit: Option<int>)
    requires Inv(db) && Approvable(db, k) && ItemsInRange(db, db.payments[k].items)
    ensures Missing(ApprovedPayment(db.payments[k], deposit)) >= 0
    ensures Within(db, SettlePayment(db, k, deposit), Missing(ApprovedPayment(db.payments[k], deposit)))
  {
    hide Inv, Used, Kept, Due, BookUpTo, SettleUpTo, Sum, EntriesFit;
    var p, names := db.payments[k], Names(db, k);
    var p', money := ApprovedPayment(p, deposit), Covered(p, deposit);
    ApprovedAlone(db, k, deposit);
    var d0 := SetPayment(db, k, p');
    var b := BookUpTo(d0, p.items, names, money, |names|);
    BookShape(d0, p.items, names, money, |names|);
    BookUpToEffect(d0, p.items, names, money, |names|);
    BookedSo(d0, p.items, names, money, |names|);
    var d := SettleUpTo(b.db, p.items, b.entryOf, k, |p.items|);
    SettleUses(b.db, p.items, b.entryOf, k, |p.items|, 0);
    forall e: nat | e < |db.entries| ensures d.entries[e] == db.entries[e] && Used(d.allocs, e) == Used(db.allocs, e) {
      assert b.db.entries[..|db.entries|][e] == db.entries[e];
      OldUnused(db, b, e);
    }
    forall e: nat | |db.entries| <= e < |d.entries| ensures Used(d.allocs, e) <= Worth(d.entries[e]) + Missing(p') {
      assert Owned(b, p.items, names, money, e, |names|);
      var i: nat :| i < |names| && BookedFor(b, p.items, names, money, e, i);
      ShareWithin(db, k, deposit, e, i);
    }
  }

  lemma {:induction false} ShareWithin(db: Db, k: nat, deposit: Option<int>, e: nat, i: nat)
    requires Inv(db) && Approvable(db, k) && ItemsInRange(db, db.payments[k].items) && i < |Names(db, k)|
    requires |db.entries| <= e < |BookPayment(db, k, deposit).db.entries|
    requires var b, n := BookPayment(db, k, deposit), Names(db, k)[i]; n in b.entryOf && b.entryOf[n] == e
    requires BookPayment(db, k, deposit).db.entries[e].amount
          == Kept(db.invoices, db.payments[k].items, Names(db, k), Covered(db.payments[k], deposit), i) > 0
    ensures Used(SettlePayment(db, k, deposit).allocs, e)
         <= BookPayment(db, k, deposit).db.entries[e].amount + Missing(ApprovedPayment(db.payments[k], deposit))
  {
    hide Inv, Used, Kept, Due, BookUpTo, SettleUpTo, Sum, EntriesFit;
    var p, names := db.payments[k], Names(db, k);
    var d0 := SetPayment(db, k, ApprovedPayment(p, deposit));
    ApprovedAlone(db, k, deposit);
    var b := BookPayment(db, k, deposit);
    BookShape(d0, p.items, names, Covered(p, deposit), |names|);
    BookUpToEffect(d0, p.items, names, Covered(p, deposit), |names|);
    NewUnused(db, e);
    SettleUses(b.db, p.items, b.entryOf, k, |p.items|, names[i]);
    assert p.items[..|p.items|] == p.items;
    forall j | 0 <= j < |p.items| ensures db.invoices[p.items[j].invoice].admin in names {
      assert db.invoices[p.items[j].invoice].admin in Payers(db.invoices, p.items);
    }
    KeptShort(db.invoices, p.items, names, Covered(p, deposit), i);
    DueIs(db.invoices, p.items, names[i]);
  }

  lemma {:induction false} DueIs(invoices: seq<Invoice>, items: seq<Item>, n: Admin)
    ensures Due(invoices, items, n) == Sum(items, OwedBy(invoices, n))
  {
  }

  lemma {:induction false} NewUnused(db: Db, e: nat)
    requires Inv(db) && e >= |db.entries|
    ensures Used(db.allocs, e) == 0
  {
    forall j | 0 <= j < |db.allocs| ensures OnEntry(e)(db.allocs[j]) == 0 { assert AllocOk(db, db.allocs[j]); }
    SumZero(db.allocs, OnEntry(e));
  }

  lemma {:induction false} ApproveWithin(db: Db, k: nat, deposit: Option<int>)
    requires Inv(db) && Approvable(db, k) && ItemsInRange(db, db.payments[k].items)
    ensures var d := ApprovePayment(db, k, deposit).value;
            && k < |d.payments| && Missing(d.payments[k]) >= 0
            && Within(db, d, Missing(d.payments[k]))
  {
    hide Inv, SettlePayment, EnforceUpTo, Within, ItemsInRange;
    var s, names := SettlePayment(db, k, deposit), Names(db, k);
    var m := Missing(ApprovedPayment(db.payments[k], deposit));
    SettledWithin(db, k, deposit);
    SettlePaymentKeeps(db, k, deposit);
    EnforceUpToPayments(s, names, |names|, k);
    EnforceAllWithin(s, names, |names|);
    WithinTwice(db, s, EnforceUpTo(s, names, |names|), m, 0);
  }

  lemma {:induction false} EnforceAllWithin(db: Db, names: seq<Admin>, k: nat)
    requires k <= |names|
    ensures Within(db, EnforceUpTo(db, names, k), 0)
  {
    hide Enforce, Within;
    SameWithin(db, db);
    if k > 0 {
      var d := EnforceUpTo(db, names, k - 1);
      EnforceAllWithin(db, names, k - 1);
      EnforceWithin(d, names[k - 1]);
      WithinTwice(db, d, Enforce(d, names[k - 1]), 0, 0);
    }
  }

  // ---- over runs ----

  /** What an event may exceed the entries it books by: the shortfall, if it is an approval. */
  ghost function Slack(ev: Event, d: Db): int {
    if ev.Approve? && ev.payment < |d.payments| then Missing(d.payments[ev.payment]) else 0
  }

  lemma {:induction false} ChargeWithin(db: Db, n: Admin, amount: nat, kind: InvoiceKind)
    requires Inv(db)
    ensures Within(db, ChargeVolume(db, n, amount, kind), 0)
  {
    hide Inv, IssueForEntry, Within;
    var d := PushEntry(db, n, EntryKind.QuotaCharge, amount);
    PushWithin(db, n, EntryKind.QuotaCharge, amount);
    IssueWithin(d, |db.entries|, kind);
    WithinTwice(db, d, IssueForEntry(d, |db.entries|, kind), 0, 0);
  }

  predicate Plain(ev: Event) {
    ev.Tick? || ev.SettleOldBalance? || ev.StartCheckout? || ev.Receipt? || ev.Cancel? || ev.Reject? || ev.Expire?
    || ev.NearMiss? || ev.Ambiguous?
  }

  lemma {:induction false} PlainSame(db: Db, ev: Event)
    requires Plain(ev)
    ensures Step(db, ev).entries == db.entries && Step(db, ev).allocs == db.allocs
  {
    hide OldBalance, CreatePayment, MarkItems, LockAvailable, Known;
    match ev
    case StartCheckout(c) => CheckoutSame(db, c);
    case _ =>
  }

  ghost predicate EventWithin(db: Db, ev: Event, d: Db) {
    Within(db, d, 0) || (Slack(ev, d) >= 0 && Within(db, d, Slack(ev, d)))
  }

  lemma {:induction false} StepWithin(db: Db, ev: Event)
    requires Inv(db)
    ensures EventWithin(db, ev, Step(db, ev))
  {
    hide Inv, Within, ApprovePayment, AddEntry, Void, VoidInvoice, SettleOutside, PayEverything, CreatePayment, ChargeVolume,
         Slack, SubmitReceipt, CancelPayment, RejectPayment, ExpireStale, FlagMismatch, HoldAmbiguous, IssueSettlement;
    SameWithin(db, db);
    match ev
    case Charge(n, amount, kind) => ChargeWithin(db, n, amount, kind);
    case Book(n, a) =>
      if AddEntry(db, n, a).Ok? { BookWithin(db, n, a); }
    case VoidTheEntry(e, why) =>
      if Void(db, e, why).Ok? { VoidWithin(db, e, why); }
    case VoidTheInvoice(i, why) =>
      if VoidInvoice(db, i, why).Ok? { VoidInvoiceWithin(db, i, why); }
    case PaidOutside(i) =>
      if SettleOutside(db, i).Ok? { OutsideWithin(db, i); }
    case PayGroup(o) =>
      if PayEverything(db, o).Created? { GroupWithin(db, o); }
    case Approve(k, deposit) => PaidWithin(db, k, deposit);
    case _ =>
      PlainSame(db, ev);
      SameWithin(db, Step(db, ev));
  }

  lemma {:induction false} CheckoutSame(db: Db, c: Checkout)
    ensures CreatePayment(db, c).Ok? ==>
              var d := CreatePayment(db, c).value; d.entries == db.entries && d.allocs == db.allocs
  {
  }

  lemma {:induction false} PaidWithin(db: Db, k: nat, deposit: Option<int>)
    requires Inv(db)
    ensures EventWithin(db, Approve(k, deposit), Step(db, Approve(k, deposit)))
  {
    hide Inv, Within, SettlePayment, EnforceUpTo, Missing, ItemsInRange;
    SameWithin(db, db);
    if Approvable(db, k) && ItemsInRange(db, db.payments[k].items) {
      ApproveWithin(db, k, deposit);
    }
  }

  /** What may exceed entry e in this run: the shortfall of the approval that booked it, and nothing for any other entry. */
  ghost function Excused(db: Db, events: seq<Event>, e: nat): int {
    if events == [] then 0
    else
      var before, ev := events[..|events| - 1], events[|events| - 1];
      if |Run(db, before).entries| <= e < |Run(db, events).entries| then Max(0, Slack(ev, Run(db, events)))
      else Excused(db, before, e)
  }

  /** Over every run from empty books: an entry is used at most for its amount, except that one booked by an approval may
      be exceeded by the shortfall recorded with it. */
  lemma {:induction false} NeverSpentTwice(now: int, events: seq<Event>, e: nat)
    requires e < |Run(Empty(now), events).entries|
    ensures Used(Run(Empty(now), events).allocs, e) <= Worth(Run(Empty(now), events).entries[e]) + Excused(Empty(now), events, e)
    ensures Excused(Empty(now), events, e) >= 0
    ensures (forall k :: 0 <= k < |events| ==> !events[k].Approve?) ==> Excused(Empty(now), events, e) == 0
  {
    hide Inv, Step, Used, Worth;
    var before, ev := events[..|events| - 1], events[|events| - 1];
    var db, d := Run(Empty(now), before), Run(Empty(now), events);
    EmptyOk(now);
    RunKeeps(Empty(now), before);
    StepWithin(db, ev);
    WorthNonNegative(d.entries[e]);
    assert forall k :: 0 <= k < |before| ==> before[k] == events[k];
    if e < |db.entries| {
      NeverSpentTwice(now, before, e);
    }
  }
}
