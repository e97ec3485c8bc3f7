// Approving a payment: the ledger entries it makes, the invoices it settles, and the
// money that must add up.
module Approving {
  import opened Wrappers
  import opened Basics
  import opened Records
  import opened Sums
  import opened Books
  import opened Settling
  import opened Enforcement
  import opened Ledger
  import opened Payments

  // ---- whose money it is ----

  predicate ItemsInRange(db: Db, items: seq<Item>) {
    forall j :: 0 <= j < |items| ==> items[j].invoice < |db.invoices|
  }

  /** The part of an item that admin n owes. */
  function OwedBy(invoices: seq<Invoice>, n: Admin): Item -> int {
    (it: Item) => if it.invoice < |invoices| && invoices[it.invoice].admin == n then it.amount else 0
  }

  function Due(invoices: seq<Invoice>, items: seq<Item>, n: Admin): int {
    Sum(items, OwedBy(invoices, n))
  }

  function Payers(invoices: seq<Invoice>, items: seq<Item>): set<Admin> {
    set j | 0 <= j < |items| && items[j].invoice < |invoices| :: invoices[items[j].invoice].admin
  }

  predicate Increasing(names: seq<Admin>) {
    forall j, k :: 0 <= j < k < |names| ==> names[j] < names[k]
  }

  ghost function Least(s: set<int>): (m: int)
    requires s != {}
    ensures m in s && forall x :: x in s ==> m <= x
  {
    assert exists x :: x in s by { assert (forall x :: x !in s) ==> s == {}; }
    var x :| x in s;
    if s == {x} then x
    else
      var y := Least(s - {x});
      assert s == (s - {x}) + {x};
      if x < y then x else y
  }

  /** The members in order. */
  ghost function InOrder(s: set<int>): (names: seq<int>)
    ensures Increasing(names) && forall x :: x in s <==> x in names
  {
    if s == {} then [] else [Least(s)] + InOrder(s - {Least(s)})
  }

  lemma {:induction false} OrderTurn(s: set<int>, m: int)
    requires m in s && forall x :: x in s ==> m <= x
    ensures InOrder(s) == [m] + InOrder(s - {m})
  {
    assert Least(s) == m;
  }

  lemma {:induction false} OrderNone()
    ensures InOrder({}) == []
  {
  }

  function DueOf(invoices: seq<Invoice>, items: seq<Item>): Admin -> int {
    (n: Admin) => Due(invoices, items, n)
  }

  /** What of the money reaches the k-th admin when they are paid in name order. */
  function Kept(invoices: seq<Invoice>, items: seq<Item>, names: seq<Admin>, money: int, k: nat): int
    requires k < |names|
  {
    Max(0, Min(Due(invoices, items, names[k]), money - Sum(names[..k], DueOf(invoices, items))))
  }

  // ---- the steps of an approval ----

  datatype Bookings = Bookings(db: Db, entryOf: map<Admin, nat>)

  /** A payment entry for each of the first k admins that gets any of the money. */
  function BookUpTo(db: Db, items: seq<Item>, names: seq<Admin>, money: int, k: nat): Bookings
    requires k <= |names|
  {
    if k == 0 then Bookings(db, map[])
    else
      var b := BookUpTo(db, items, names, money, k - 1);
      var kept := Kept(db.invoices, items, names, money, k - 1);
      if kept > 0 then
        Bookings(PushEntry(b.db, names[k - 1], PaymentIn, kept), b.entryOf[names[k - 1] := |b.db.entries|])
      else b
  }

  function ItemRow(db: Db, it: Item, entryOf: map<Admin, nat>, k: nat): Alloc
    requires it.invoice < |db.invoices|
  {
    var v := db.invoices[it.invoice];
    Alloc(it.invoice, ByPayment, Min(it.amount, v.Remaining()),
          if v.admin in entryOf then Some(entryOf[v.admin]) else None, Some(k), false, false)
  }

  /** An item settles what is still open of its invoice, which then is no longer under review. */
  ghost function SettleItem(db: Db, it: Item, entryOf: map<Admin, nat>, k: nat): Db
    requires it.invoice < |db.invoices|
  {
    var row := ItemRow(db, it, entryOf, k);
    if row.amount <= 0 then db
    else
      var d := AddRow(db, row);
      d.(invoices := d.invoices[it.invoice := MarkIf(d.invoices[it.invoice], true, Pending, Unpaid)])
  }

  ghost function SettleUpTo(db: Db, items: seq<Item>, entryOf: map<Admin, nat>, k: nat, j: nat): (d: Db)
    requires ItemsInRange(db, items) && j <= |items|
    ensures |d.invoices| == |db.invoices|
  {
    if j == 0 then db else SettleItem(SettleUpTo(db, items, entryOf, k, j - 1), items[j - 1], entryOf, k)
  }

  ghost function EnforceUpTo(db: Db, names: seq<Admin>, k: nat): Db
    requires k <= |names|
  {
    if k == 0 then db else Enforce(EnforceUpTo(db, names, k - 1), names[k - 1])
  }

  // ---- approve_payment ----

  /** What arrived: the deposit, else the near-miss deposit, else the unique amount. */
  function Arrived(p: Payment, deposit: Option<int>): int {
    match deposit
    case Some(x) => x
    case None => if p.mismatch.Some? then p.mismatch.value else p.unique
  }

  function Covered(p: Payment, deposit: Option<int>): int {
    Min(Arrived(p, deposit), p.amount)
  }

  function ApprovedPayment(p: Payment, deposit: Option<int>): Payment {
    var covered := Covered(p, deposit);
    p.(status := Approved, received := Some(Arrived(p, deposit)),
       shortfall := if covered < p.amount then Some(p.amount - covered) else None).WithLock()
  }

  ghost function Names(db: Db, k: nat): seq<Admin>
    requires k < |db.payments|
  {
    InOrder(Payers(db.invoices, db.payments[k].items))
  }

  /** The ledger entries of the payment. */
  ghost function BookPayment(db: Db, k: nat, deposit: Option<int>): Bookings
    requires k < |db.payments|
  {
    var p := db.payments[k];
    var names := Names(db, k);
    BookUpTo(SetPayment(db, k, ApprovedPayment(p, deposit)), p.items, names, Covered(p, deposit), |names|)
  }

  /** And then its allocations. */
  ghost function SettlePayment(db: Db, k: nat, deposit: Option<int>): Db
    requires k < |db.payments| && ItemsInRange(db, db.payments[k].items)
  {
    var b, items := BookPayment(db, k, deposit), db.payments[k].items;
    BookShape(SetPayment(db, k, ApprovedPayment(db.payments[k], deposit)), items, Names(db, k), Covered(db.payments[k], deposit), |Names(db, k)|);
    SettleUpTo(b.db, items, b.entryOf, k, |items|)
  }

  ghost function ApprovePayment(db: Db, k: nat, deposit: Option<int>): Result<Db, Refusal> {
    if k >= |db.payments| then Err(NotFound)
    else
      var p := db.payments[k];
      if p.status.Approved? then Ok(db)
      else if !p.Matchable() && !p.status.Rejected? then Err(Conflict)
      else if !ItemsInRange(db, p.items) then Err(NotFound)
      else Ok(EnforceUpTo(SettlePayment(db, k, deposit), Names(db, k), |Names(db, k)|))
  }

  // ---- the entries add up ----

  lemma {:induction false} BookShape(db: Db, items: seq<Item>, names: seq<Admin>, money: int, k: nat)
    requires k <= |names|
    ensures var b := BookUpTo(db, items, names, money, k);
            && b.db == db.(entries := b.db.entries)
            && |db.entries| <= |b.db.entries| && b.db.entries[..|db.entries|] == db.entries
  {
    if k > 0 {
      BookShape(db, items, names, money, k - 1);
    }
  }

  function EntryAmount(): Entry -> int { (x: Entry) => x.amount }

  lemma {:induction false} DueNonNegative(invoices: seq<Invoice>, items: seq<Item>, n: Admin)
    requires forall j :: 0 <= j < |items| ==> items[j].amount > 0
    ensures Due(invoices, items, n) >= 0
  {
    forall j | 0 <= j < |items| ensures OwedBy(invoices, n)(items[j]) >= 0 {}
    SumMember(items, OwedBy(invoices, n));
  }

  lemma {:induction false} ClampStep(money: int, start: int, due: int)
    requires start >= 0 && due >= 0
    ensures Max(0, Min(money, start)) + Max(0, Min(due, money - start)) == Max(0, Min(money, start + due))
  {
  }

  lemma {:induction false} BookStep(db: Db, items: seq<Item>, names: seq<Admin>, money: int, k: nat)
    requires k < |names|
    ensures Sum(BookUpTo(db, items, names, money, k + 1).db.entries, EntryAmount())
         == Sum(BookUpTo(db, items, names, money, k).db.entries, EntryAmount()) + Kept(db.invoices, items, names, money, k)
  {
    var b, kept := BookUpTo(db, items, names, money, k), Kept(db.invoices, items, names, money, k);
    SumPush(b.db.entries, Entry(names[k], PaymentIn, kept, b.db.now, false), EntryAmount());
  }

  /** Paid in name order, the first k admins together get the money up to what they owe. */
  lemma {:induction false} KeptAddsUp(db: Db, items: seq<Item>, names: seq<Admin>, money: int, k: nat)
    requires k <= |names|
    requires forall j :: 0 <= j < |items| ==> items[j].amount > 0
    ensures Sum(BookUpTo(db, items, names, money, k).db.entries, EntryAmount())
         == Sum(db.entries, EntryAmount()) + Max(0, Min(money, Sum(names[..k], DueOf(db.invoices, items))))
    ensures Sum(names[..k], DueOf(db.invoices, items)) >= 0
  {
    hide EntryAmount;
    hide PushEntry;
    if k > 0 {
      var j, f := k - 1, DueOf(db.invoices, items);
      KeptAddsUp(db, items, names, money, j);
      DueNonNegative(db.invoices, items, names[j]);
      DuePush(names, f, j);
      BookStep(db, items, names, money, j);
      ClampStep(money, Sum(names[..j], f), f(names[j]));
    }
  }

  lemma {:induction false} DuePush(names: seq<Admin>, f: Admin -> int, j: nat)
    requires j < |names|
    ensures Sum(names[..j + 1], f) == Sum(names[..j], f) + f(names[j])
  {
    assert names[..j + 1] == names[..j] + [names[j]];
    SumPush(names[..j], names[j], f);
  }

  /** Every item belongs to exactly one of the named admins. */
  lemma {:induction false} DuesCover(invoices: seq<Invoice>, items: seq<Item>, names: seq<Admin>)
    requires Increasing(names)
    requires forall j :: 0 <= j < |items| ==> items[j].invoice < |invoices| && invoices[items[j].invoice].admin in names
    ensures Sum(names, DueOf(invoices, items)) == Sum(items, ItemAmount())
  {
    if items == [] {
      SumZero(names, DueOf(invoices, items));
    } else {
      var rest, it := items[..|items| - 1], items[|items| - 1];
      DuesCover(invoices, rest, names);
      var a := invoices[it.invoice].admin;
      assert items == rest + [it];
      forall k | 0 <= k < |names|
        ensures DueOf(invoices, items)(names[k]) == DueOf(invoices, rest)(names[k]) + if names[k] == a then it.amount else 0
      {
        SumPush(rest, it, OwedBy(invoices, names[k]));
      }
      SumOneMore(names, DueOf(invoices, rest), DueOf(invoices, items), a, it.amount);
    }
  }

  /** An approval conserves money: the entries it books add up to what arrived, at most the amount;
      with the recorded shortfall, to the amount; and no admin is credited more than it owed. */
  lemma {:induction false} EntriesConserve(db: Db, k: nat, deposit: Option<int>)
    requires Inv(db) && k < |db.payments|
    ensures var p, b := db.payments[k], BookPayment(db, k, deposit);
            var booked := Sum(b.db.entries, EntryAmount()) - Sum(db.entries, EntryAmount());
            && booked == Max(0, Min(Arrived(p, deposit), p.amount))
            && (Arrived(p, deposit) >= 0 ==>
                  booked + (match ApprovedPayment(p, deposit).shortfall case Some(s) => s case None => 0) == p.amount)
    ensures forall j :: 0 <= j < |Names(db, k)| ==>
              0 <= Kept(db.invoices, db.payments[k].items, Names(db, k), Covered(db.payments[k], deposit), j)
                <= Due(db.invoices, db.payments[k].items, Names(db, k)[j])
  {
    var p, names := db.payments[k], Names(db, k);
    assert PaymentOk(db, p);
    var d := SetPayment(db, k, ApprovedPayment(p, deposit));
    forall j | 0 <= j < |p.items| ensures db.invoices[p.items[j].invoice].admin in names {
      assert db.invoices[p.items[j].invoice].admin in Payers(db.invoices, p.items);
    }
    DuesCover(db.invoices, p.items, names);
    KeptAddsUp(d, p.items, names, Covered(p, deposit), |names|);
    assert names[..|names|] == names;
    forall n ensures Due(db.invoices, p.items, n) >= 0 {
      DueNonNegative(db.invoices, p.items, n);
    }
  }

  // ---- the allocations add up ----

  /** Every admin's new entry is a live payment of its own. */
  ghost predicate EntriesFit(db: Db, entryOf: map<Admin, nat>) {
    forall n :: n in entryOf ==>
      entryOf[n] < |db.entries| && db.entries[entryOf[n]].admin == n && !db.entries[entryOf[n]].voided
      && db.entries[entryOf[n]].Reducing()
  }

  /** Settling an item pays min(item, what is left) into its invoice, takes it out of review, and touches no other. */
  ghost predicate ItemSettled(db: Db, d: Db, it: Item)
    requires it.invoice < |db.invoices|
  {
    var v := db.invoices[it.invoice];
    && d.entries == db.entries && d.payments == db.payments && d.now == db.now
    && |d.invoices| == |db.invoices|
    && (forall i :: 0 <= i < |db.invoices| && i != it.invoice ==> d.invoices[i] == db.invoices[i])
    && (var v' := d.invoices[it.invoice];
        && v' == v.(paid := v'.paid, via := v'.via, status := v'.status)
        && v'.paid == v.paid + Min(it.amount, v.Remaining())
        && !v'.status.Pending?)
    && Total(d.allocs) == Total(db.allocs) + Min(it.amount, v.Remaining())
  }

  lemma {:induction false} SettleItemEffect(db: Db, it: Item, entryOf: map<Admin, nat>, k: nat)
    requires BooksOk(db) && it.invoice < |db.invoices| && it.amount > 0 && EntriesFit(db, entryOf)
    ensures BooksOk(SettleItem(db, it, entryOf, k))
    ensures ItemSettled(db, SettleItem(db, it, entryOf, k), it)
  {
    var row, v := ItemRow(db, it, entryOf, k), db.invoices[it.invoice];
    assert InvoiceOk(db, it.invoice);
    if row.amount > 0 {
      assert FitsRow(db, row, v.admin);
      AddRowEffect(db, row, v.admin);
      SumPush(db.allocs, row, RowAmount());
      MarksKeepBooks(AddRow(db, row), SettleItem(db, it, entryOf, k));
    }
  }

  ghost predicate DistinctItems(db: Db, items: seq<Item>) {
    && (forall j :: 0 <= j < |items| ==> items[j].invoice < |db.invoices| && items[j].amount > 0)
    && (forall j, l :: 0 <= j < l < |items| ==> items[j].invoice != items[l].invoice)
  }

  /** The first j items, settled: each exactly by min(item, what was left), all others as before. */
  ghost predicate ItemsSettled(db: Db, d: Db, items: seq<Item>, j: nat)
    requires DistinctItems(db, items) && j <= |items|
  {
    && d.entries == db.entries && d.payments == db.payments && d.now == db.now
    && |d.invoices| == |db.invoices|
    && (forall i :: 0 <= i < |db.invoices| && (forall l :: 0 <= l < j ==> items[l].invoice != i) ==> d.invoices[i] == db.invoices[i])
    && (forall l :: 0 <= l < j ==>
          var v, v' := db.invoices[items[l].invoice], d.invoices[items[l].invoice];
          && v' == v.(paid := v'.paid, via := v'.via, status := v'.status)
          && v'.paid == v.paid + Min(items[l].amount, v.Remaining())
          && !v'.status.Pending?)
    && Total(d.allocs) <= Total(db.allocs) + Sum(items[..j], ItemAmount())
  }

  lemma {:induction false} ItemStep(db: Db, d: Db, d': Db, items: seq<Item>, j: nat)
    requires DistinctItems(db, items) && j < |items|
    requires ItemsSettled(db, d, items, j) && ItemSettled(d, d', items[j])
    ensures ItemsSettled(db, d', items, j + 1)
  {
    var i := items[j].invoice;
    assert d.invoices[i] == db.invoices[i];
    assert items[..j + 1] == items[..j] + [items[j]];
    SumPush(items[..j], items[j], ItemAmount());
    forall l | 0 <= l < j ensures d'.invoices[items[l].invoice] == d.invoices[items[l].invoice] {
      assert items[l].invoice != i;
    }
  }

  lemma {:induction false} SettleUpToEffect(db: Db, items: seq<Item>, entryOf: map<Admin, nat>, k: nat, j: nat)
    requires BooksOk(db) && DistinctItems(db, items) && EntriesFit(db, entryOf) && j <= |items|
    ensures BooksOk(SettleUpTo(db, items, entryOf, k, j))
    ensures ItemsSettled(db, SettleUpTo(db, items, entryOf, k, j), items, j)
  {
    hide BooksOk;
    hide SettleItem;
    if j > 0 {
      var d, it := SettleUpTo(db, items, entryOf, k, j - 1), items[j - 1];
      SettleUpToEffect(db, items, entryOf, k, j - 1);
      SettleItemEffect(d, it, entryOf, k);
      ItemStep(db, d, SettleItem(d, it, entryOf, k), items, j - 1);
    }
  }

  lemma {:induction false} BookUpToEffect(db: Db, items: seq<Item>, names: seq<Admin>, money: int, k: nat)
    requires BooksOk(db) && k <= |names|
    ensures var b := BookUpTo(db, items, names, money, k);
            && BooksOk(b.db)
            && EntriesFit(b.db, b.entryOf)
            && b.db == db.(entries := b.db.entries)
            && (forall m :: m !in names[..k] ==> Balance(b.db, m) == Balance(db, m))
  {
    if k > 0 {
      BookUpToEffect(db, items, names, money, k - 1);
      var b, kept := BookUpTo(db, items, names, money, k - 1), Kept(db.invoices, items, names, money, k - 1);
      assert names[..k] == names[..k - 1] + [names[k - 1]];
      if kept > 0 {
        PushEntryBooks(b.db, names[k - 1], PaymentIn, kept);
        forall m | m !in names[..k] ensures Balance(BookUpTo(db, items, names, money, k).db, m) == Balance(db, m) {
          assert m !in names[..k - 1] && m != names[k - 1];
          PushEntryBalance(b.db, names[k - 1], PaymentIn, kept, m);
        }
      }
    }
  }

  /** Everyone among the first k names is within its debt; nobody else moved. */
  ghost predicate EnforcedUpTo(db: Db, d: Db, names: seq<Admin>, k: nat)
    requires k <= |names|
  {
    && (forall j :: 0 <= j < k ==> WithinDebt(d, names[j]))
    && (forall m :: m !in names[..k] ==> SameFor(db, d, m))
  }

  lemma {:induction false} EnforceStep(db: Db, d: Db, d': Db, names: seq<Admin>, k: nat)
    requires k < |names| && Increasing(names) && EnforcedUpTo(db, d, names, k)
    requires WithinDebt(d', names[k]) && forall m :: m != names[k] ==> SameFor(d, d', m)
    ensures EnforcedUpTo(db, d', names, k + 1)
  {
    assert names[..k + 1] == names[..k] + [names[k]];
    forall j | 0 <= j < k + 1 ensures WithinDebt(d', names[j]) {
      assert j < k ==> SameFor(d, d', names[j]);
    }
    forall m | m !in names[..k + 1] ensures SameFor(db, d', m) {
      assert m !in names[..k] && m != names[k];
      assert SameFor(db, d, m) && SameFor(d, d', m);
    }
  }

  lemma {:induction false} EnforceUpToInv(db: Db, names: seq<Admin>, k: nat)
    requires Inv(db) && k <= |names|
    ensures Inv(EnforceUpTo(db, names, k))
  {
    hide Inv;
    hide Enforce;
    hide WithinDebt;
    if k > 0 {
      EnforceUpToInv(db, names, k - 1);
      EnforceWithin(EnforceUpTo(db, names, k - 1), names[k - 1]);
    }
  }

  lemma {:induction false} EnforceUpToKeeps(db: Db, names: seq<Admin>, k: nat)
    requires Inv(db) && k <= |names| && Increasing(names)
    ensures EnforcedUpTo(db, EnforceUpTo(db, names, k), names, k)
  {
    hide Inv;
    hide Enforce;
    hide WithinDebt;
    if k > 0 {
      EnforceUpToKeeps(db, names, k - 1);
      EnforceUpToInv(db, names, k - 1);
      var d := EnforceUpTo(db, names, k - 1);
      EnforceWithin(d, names[k - 1]);
      EnforceStep(db, d, Enforce(d, names[k - 1]), names, k - 1);
    }
  }

  // ---- an approval keeps everything ----

  ghost predicate Approvable(db: Db, k: nat) {
    k < |db.payments| && (db.payments[k].Matchable() || db.payments[k].status.Rejected?)
  }

  /** The payment alone, approved: its items are distinct, and the books and the payment rules are kept. */
  lemma {:induction false} ApprovedAlone(db: Db, k: nat, deposit: Option<int>)
    requires Inv(db) && Approvable(db, k)
    ensures DistinctItems(db, db.payments[k].items) && Sum(db.payments[k].items, ItemAmount()) == db.payments[k].amount
    ensures var d := SetPayment(db, k, ApprovedPayment(db.payments[k], deposit)); BooksOk(d) && PaymentRules(d)
  {
    hide LocksDistinct, OneCheckout, Sum;
    var p, p' := db.payments[k], ApprovedPayment(db.payments[k], deposit);
    assert PaymentOk(db, p);
    BooksSame(db, SetPayment(db, k, p'));
    OwnLockAvailable(db, k, p');
    SetPaymentKeeps(db, k, p', db.invoices);
  }

  /** Before enforce looks at it, an approved payment has settled each of its invoices by at most what was
      still open of it, leaves none of them under review, and has allocated at most its amount. */
  lemma {:induction false} SettlePaymentKeeps(db: Db, k: nat, deposit: Option<int>)
    requires Inv(db) && Approvable(db, k)
    ensures DistinctItems(db, db.payments[k].items)
    ensures var p, d, b := db.payments[k], SettlePayment(db, k, deposit), BookPayment(db, k, deposit);
            && Inv(d)
            && b.db.allocs == db.allocs && b.db.invoices == db.invoices && d.entries == b.db.entries
            && DistinctItems(b.db, p.items)
            && ItemsSettled(b.db, d, p.items, |p.items|)
            && d.payments == db.payments[k := ApprovedPayment(p, deposit)]
            && Total(d.allocs) - Total(db.allocs) <= p.amount
            && (forall m :: m !in Names(db, k) ==> SameFor(db, d, m))
  {
    hide LocksDistinct, OneCheckout, Sum, BooksOk, BookUpTo, SettleUpTo;
    var p, names := db.payments[k], Names(db, k);
    var p' := ApprovedPayment(p, deposit);
    var d0 := SetPayment(db, k, p');
    ApprovedAlone(db, k, deposit);
    BookUpToEffect(d0, p.items, names, Covered(p, deposit), |names|);
    var b, d := BookPayment(db, k, deposit), SettlePayment(db, k, deposit);
    SettleUpToEffect(b.db, p.items, b.entryOf, k, |p.items|);
    assert p.items[..|p.items|] == p.items && names[..|names|] == names;
    ApprovedCovers(db, d, k, p');
    forall j | 0 <= j < |d.payments| ensures PaymentOk(d, d.payments[j]) { assert PaymentOk(d0, d0.payments[j]); }
    ItemAdmins(b.db, d, p.items);
    forall m | m !in names ensures SameFor(db, d, m) { OthersUnpaid(b.db, d, p.items, m); }
  }

  /** An admin that none of the items belongs to is left alone. */
  lemma {:induction false} OthersUnpaid(db: Db, d: Db, items: seq<Item>, m: Admin)
    requires DistinctItems(db, items) && ItemsSettled(db, d, items, |items|)
    requires m !in Payers(db.invoices, items)
    requires forall i :: 0 <= i < |db.invoices| ==> d.invoices[i].admin == db.invoices[i].admin
    ensures OpenTotal(d, m) == OpenTotal(db, m) && UnpaidTotal(d, m) == UnpaidTotal(db, m) && ReviewTotal(d, m) == ReviewTotal(db, m)
  {
    forall i | 0 <= i < |db.invoices| && db.invoices[i].admin == m ensures d.invoices[i] == db.invoices[i] {
      forall l | 0 <= l < |items| ensures items[l].invoice != i {
        assert db.invoices[items[l].invoice].admin in Payers(db.invoices, items);
      }
    }
    TotalsSame(db.invoices, d.invoices, m);
  }

  lemma {:induction false} ItemAdmins(db: Db, d: Db, items: seq<Item>)
    requires DistinctItems(db, items) && ItemsSettled(db, d, items, |items|)
    ensures forall i :: 0 <= i < |db.invoices| ==> d.invoices[i].admin == db.invoices[i].admin
  {
    forall i | 0 <= i < |db.invoices| ensures d.invoices[i].admin == db.invoices[i].admin {
      if l :| 0 <= l < |items| && items[l].invoice == i {
        assert d.invoices[items[l].invoice].admin == db.invoices[items[l].invoice].admin;
      }
    }
  }

  /** Every invoice still under review is covered by another payment. */
  lemma {:induction false} ApprovedCovers(db: Db, d: Db, k: nat, p': Payment)
    requires Inv(db) && k < |db.payments| && DistinctItems(db, db.payments[k].items)
    requires |d.invoices| == |db.invoices| && d.payments == db.payments[k := p']
    requires forall i :: 0 <= i < |db.invoices| && !db.payments[k].Holds(i) ==> d.invoices[i] == db.invoices[i]
    requires forall l :: 0 <= l < |db.payments[k].items| ==> !d.invoices[db.payments[k].items[l].invoice].status.Pending?
    ensures AllCovered(d)
  {
    forall i | 0 <= i < |d.invoices| ensures ReviewCovered(d, i) {
      if d.invoices[i].status.Pending? {
        assert !db.payments[k].Holds(i);
        assert ReviewCovered(db, i);
        var j :| 0 <= j < |db.payments| && db.payments[j].Covers(i);
        assert j != k && d.payments[j] == db.payments[j];
      }
    }
  }

  /** Approving keeps the invariant and every admin's debt rule, and a second approval changes nothing. */
  lemma {:induction false} ApprovePaymentKeeps(db: Db, k: nat, deposit: Option<int>)
    requires Inv(db)
    requires ApprovePayment(db, k, deposit).Ok?
    ensures Keeps(db, ApprovePayment(db, k, deposit).value)
  {
    hide EnforceUpTo;
    hide BooksOk;
    hide PaymentsOk;
    hide WithinDebt;
    hide BookPayment;
    if !db.payments[k].status.Approved? {
      var d, names := SettlePayment(db, k, deposit), Names(db, k);
      SettlePaymentKeeps(db, k, deposit);
      EnforceUpToInv(d, names, |names|);
      EnforceUpToKeeps(d, names, |names|);
      assert names[..|names|] == names;
      WithinAfterAll(db, d, EnforceUpTo(d, names, |names|), names);
    }
  }

  lemma {:induction false} WithinAfterAll(db: Db, d: Db, d': Db, names: seq<Admin>)
    requires forall m :: m !in names ==> SameFor(db, d, m)
    requires names[..|names|] == names && EnforcedUpTo(d, d', names, |names|)
    ensures forall m :: WithinDebt(db, m) ==> WithinDebt(d', m)
  {
    forall m | WithinDebt(db, m) ensures WithinDebt(d', m) {
      if m in names {
        var j :| 0 <= j < |names| && names[j] == m;
        assert WithinDebt(d', names[j]);
      } else {
        assert SameFor(db, d, m) && SameFor(d, d', m);
      }
    }
  }

  lemma {:induction false} EnforceUpToPayments(db: Db, names: seq<Admin>, j: nat, k: nat)
    requires Inv(db) && j <= |names| && k < |db.payments| && !db.payments[k].status.AwaitingTransfer?
    ensures |EnforceUpTo(db, names, j).payments| == |db.payments|
    ensures EnforceUpTo(db, names, j).payments[k] == db.payments[k]
  {
    hide Inv;
    hide Enforce;
    if j > 0 {
      EnforceUpToPayments(db, names, j - 1, k);
      EnforceUpToInv(db, names, j - 1);
      SettledPayment(EnforceUpTo(db, names, j - 1), names[j - 1], k);
    }
  }

  lemma {:induction false} SettledPayment(db: Db, n: Admin, k: nat)
    requires Inv(db) && k < |db.payments| && !db.payments[k].status.AwaitingTransfer?
    ensures |Enforce(db, n).payments| == |db.payments| && Enforce(db, n).payments[k] == db.payments[k]
  {
    EnforceExact(db, n);
  }

  /** A second approval, with whatever deposit, changes nothing. */
  lemma {:induction false} ApproveOnce(db: Db, k: nat, deposit: Option<int>, again: Option<int>)
    requires Inv(db) && Approvable(db, k)
    ensures var r := ApprovePayment(db, k, deposit);
            r.Ok? && ApprovePayment(r.value, k, again) == Ok(r.value)
  {
    hide Names;
    hide BooksOk;
    hide EnforceUpTo;
    hide BookPayment;
    hide SettleUpTo;
    var d, names := SettlePayment(db, k, deposit), Names(db, k);
    SettlePaymentKeeps(db, k, deposit);
    EnforceUpToPayments(d, names, |names|, k);
    EnforceUpToInv(d, names, |names|);
    var d' := ApprovePayment(db, k, deposit).value;
    assert PaymentOk(d', d'.payments[k]);
  }

  /** The allocations of an approved payment exceed the entries booked for it by at most its shortfall. */
  lemma {:induction false} AllocationsWithinShortfall(db: Db, k: nat, deposit: Option<int>)
    requires Inv(db) && Approvable(db, k) && Arrived(db.payments[k], deposit) >= 0
    ensures ItemsInRange(db, db.payments[k].items)
    ensures var p, d, b := db.payments[k], SettlePayment(db, k, deposit), BookPayment(db, k, deposit);
            (Total(d.allocs) - Total(db.allocs)) - (Sum(b.db.entries, EntryAmount()) - Sum(db.entries, EntryAmount()))
            <= match ApprovedPayment(p, deposit).shortfall case Some(x) => x case None => 0
  {
    SettlePaymentKeeps(db, k, deposit);
    EntriesConserve(db, k, deposit);
  }
}
