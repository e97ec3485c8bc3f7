// Paying a whole group's debt at once: the total shown, the settlement invoices for old
// balances, and the one checkout for everything.
module PayAll {
  import opened Wrappers
  import opened Basics
  import opened Records
  import opened Sums
  import opened Books
  import opened Ledger
  import opened Billing
  import opened Payments

  // ---- what is payable ----

  /** What an admin can pay now: its unpaid invoices and the old balance no invoice covers. */
  function PayableOf(db: Db): Admin -> int {
    (n: Admin) => UnpaidTotal(db, n) + Max(0, OldBalance(db, n))
  }

  function Payable(db: Db, names: seq<Admin>): int {
    Sum(names, PayableOf(db))
  }

  /** The unpaid invoices of n that have something left. */
  function UnpaidIds(db: Db, n: Admin): set<int> {
    set i | 0 <= i < |db.invoices| && db.invoices[i].admin == n && db.invoices[i].status.Unpaid? && db.invoices[i].Remaining() > 0
  }

  // ---- the breakdown shown to the payer ----

  datatype DebtItem = OpenInvoice(id: nat, amount: int, status: InvoiceStatus) | OldDebt(amount: int)

  datatype AdminDebt = AdminDebt(admin: Admin, total: int, review: int, items: seq<DebtItem>)

  datatype Breakdown = Breakdown(total: int, payable: int, review: int, ledgerDebt: int, outside: int, admins: seq<AdminDebt>)

  /** The open invoices of n with something left, among the first k. */
  function OpenItems(invoices: seq<Invoice>, n: Admin, k: nat): seq<DebtItem>
    requires k <= |invoices|
  {
    if k == 0 then []
    else
      var v := invoices[k - 1];
      OpenItems(invoices, n, k - 1)
      + (if v.admin == n && v.IsOpen() && v.Remaining() > 0 then [OpenInvoice(k - 1, v.Remaining(), v.status)] else [])
  }

  function DebtOf(db: Db, n: Admin): AdminDebt {
    var owed := Max(0, OldBalance(db, n));
    AdminDebt(n, OpenTotal(db, n) + owed, ReviewTotal(db, n),
              OpenItems(db.invoices, n, |db.invoices|) + (if owed > 0 then [OldDebt(owed)] else []))
  }

  function DebtTotal(db: Db): Admin -> int { (n: Admin) => OpenTotal(db, n) + Max(0, OldBalance(db, n)) }

  function ReviewTotalOf(db: Db): Admin -> int { (n: Admin) => ReviewTotal(db, n) }

  function LedgerDebtOf(db: Db): Admin -> int { (n: Admin) => Debt(db, n) }

  function OutsideTotalOf(db: Db): Admin -> int { (n: Admin) => OutsideTotal(db, n) }

  /** What is shown as payable is the total less what is under review. */
  lemma {:induction false} PayableIsRest(db: Db, names: seq<Admin>)
    ensures Sum(names, DebtTotal(db)) - Sum(names, ReviewTotalOf(db)) == Payable(db, names)
  {
    if names != [] {
      var rest, n := names[..|names| - 1], names[|names| - 1];
      PayableIsRest(db, rest);
      OpenSplits(db.invoices, n);
    }
  }

  // ---- what the breakdown lists ----

  function ItemOwed(): DebtItem -> int { (it: DebtItem) => it.amount }

  /** Invoice i is open and not paid in full, and n owes it. */
  predicate Owes(db: Db, n: Admin, i: int) {
    0 <= i < |db.invoices| && db.invoices[i].admin == n
    && (db.invoices[i].status.Unpaid? || db.invoices[i].status.Pending?) && db.invoices[i].paid < db.invoices[i].amount
  }

  lemma {:induction false} OpenSum(invoices: seq<Invoice>, n: Admin, k: nat)
    requires k <= |invoices|
    ensures Sum(OpenItems(invoices, n, k), ItemOwed()) == Sum(invoices[..k], OpenOf(n))
  {
    if k > 0 {
      OpenSum(invoices, n, k - 1);
      var before, v := OpenItems(invoices, n, k - 1), invoices[k - 1];
      assert invoices[..k] == invoices[..k - 1] + [v];
      SumPush(invoices[..k - 1], v, OpenOf(n));
      SumPush(before, OpenInvoice(k - 1, v.Remaining(), v.status), ItemOwed());
      assert before + [] == before;
    }
  }

  /** An item for an invoice that n owes, among the first k. */
  predicate ListedRight(db: Db, n: Admin, it: DebtItem, k: nat) {
    && it.OpenInvoice? && it.id < k && Owes(db, n, it.id)
    && it.amount == db.invoices[it.id].amount - db.invoices[it.id].paid && it.status == db.invoices[it.id].status
  }

  ghost predicate AllListed(db: Db, n: Admin, items: seq<DebtItem>, k: nat) {
    && (forall j :: 0 <= j < |items| ==> ListedRight(db, n, items[j], k))
    && (forall i, j :: 0 <= i < j < |items| && items[i].OpenInvoice? && items[j].OpenInvoice? ==> items[i].id < items[j].id)
  }

  lemma {:induction false} OneListed(db: Db, n: Admin, before: seq<DebtItem>, k: nat)
    requires k < |db.invoices| && AllListed(db, n, before, k)
    ensures AllListed(db, n, before, k + 1)
    ensures var v := db.invoices[k];
            v.admin == n && v.IsOpen() && v.Remaining() > 0 ==>
              AllListed(db, n, before + [OpenInvoice(k, v.Remaining(), v.status)], k + 1)
  {
    var v := db.invoices[k];
    forall j | 0 <= j < |before| ensures ListedRight(db, n, before[j], k + 1) {
      assert ListedRight(db, n, before[j], k);
    }
  }

  lemma {:induction false} OpenListed(db: Db, n: Admin, k: nat)
    requires k <= |db.invoices|
    ensures AllListed(db, n, OpenItems(db.invoices, n, k), k)
  {
    hide AllListed;
    if k == 0 {
      NoneListed(db, n);
    } else {
      OpenListed(db, n, k - 1);
      OneListed(db, n, OpenItems(db.invoices, n, k - 1), k - 1);
      assert OpenItems(db.invoices, n, k - 1) + [] == OpenItems(db.invoices, n, k - 1);
    }
  }

  lemma {:induction false} NoneListed(db: Db, n: Admin)
    ensures AllListed(db, n, [], 0)
  {
  }

  lemma {:induction false} OwedIsListed(db: Db, n: Admin, k: nat, i: nat)
    requires i < k <= |db.invoices| && Owes(db, n, i)
    ensures exists j :: 0 <= j < |OpenItems(db.invoices, n, k)|
                        && OpenItems(db.invoices, n, k)[j].OpenInvoice? && OpenItems(db.invoices, n, k)[j].id == i
  {
    var items, before := OpenItems(db.invoices, n, k), OpenItems(db.invoices, n, k - 1);
    assert before <= items;
    if i == k - 1 {
      assert items[|items| - 1] == OpenInvoice(i, db.invoices[i].Remaining(), db.invoices[i].status);
    } else {
      OwedIsListed(db, n, k - 1, i);
      var j :| 0 <= j < |before| && before[j].OpenInvoice? && before[j].id == i;
      assert items[j] == before[j];
    }
  }

  /** The breakdown lists invoices an admin owes, oldest first, each with what is left of it and whether it is under review,
      and then, if there is any, the old balance that no invoice and no outside settlement accounts for. */
  lemma {:induction false} BreakdownLists(db: Db, n: Admin)
    ensures var d, rest := DebtOf(db, n), Balance(db, n) - OpenTotal(db, n) - OutsideTotal(db, n);
            var count := if rest > 0 then |d.items| - 1 else |d.items|;
            && d.admin == n && d.review == ReviewTotal(db, n)
            && count >= 0 && (rest > 0 ==> d.items[count] == OldDebt(rest))
            && AllListed(db, n, d.items[..count], |db.invoices|)
  {
    hide OpenItems, Balance, OutsideTotal, OpenTotal, ReviewTotal, AllListed;
    var listed := OpenItems(db.invoices, n, |db.invoices|);
    OpenListed(db, n, |db.invoices|);
    assert listed + [] == listed && listed[..|listed|] == listed;
    assert (listed + [OldDebt(OldBalance(db, n))])[..|listed|] == listed;
  }

  /** Its total is the sum of what it lists. */
  lemma {:induction false} BreakdownAddsUp(db: Db, n: Admin)
    ensures DebtOf(db, n).total == Sum(DebtOf(db, n).items, ItemOwed())
  {
    hide OpenItems, Balance, OutsideTotal;
    var listed, owed := OpenItems(db.invoices, n, |db.invoices|), Max(0, OldBalance(db, n));
    OpenSum(db.invoices, n, |db.invoices|);
    assert db.invoices[..|db.invoices|] == db.invoices;
    SumPush(listed, OldDebt(owed), ItemOwed());
    assert listed + [] == listed;
  }

  /** And no invoice the admin owes is missing. */
  lemma {:induction false} BreakdownComplete(db: Db, n: Admin, i: nat)
    requires Owes(db, n, i)
    ensures exists j :: 0 <= j < |DebtOf(db, n).items| && DebtOf(db, n).items[j].OpenInvoice? && DebtOf(db, n).items[j].id == i
  {
    hide OpenItems, Balance, OutsideTotal, ReviewTotal;
    OwedIsListed(db, n, |db.invoices|, i);
    var listed := OpenItems(db.invoices, n, |db.invoices|);
    var j :| 0 <= j < |listed| && listed[j].OpenInvoice? && listed[j].id == i;
    assert DebtOf(db, n).items[j] == listed[j];
  }

  /** The unpaid ones among the listed items are the admin's unpaid invoices. */
  function UnpaidAmong(items: seq<DebtItem>): set<int> {
    set j | 0 <= j < |items| && items[j].OpenInvoice? && items[j].status.Unpaid? :: items[j].id
  }

  lemma {:induction false} NoneUnpaid()
    ensures UnpaidAmong([]) == {}
  {
  }

  lemma {:induction false} UnpaidPush(items: seq<DebtItem>, it: DebtItem)
    ensures UnpaidAmong(items + [it])
         == UnpaidAmong(items) + (if it.OpenInvoice? && it.status.Unpaid? then {it.id as int} else {})
  {
    var s := items + [it];
    forall i | i in UnpaidAmong(items) ensures i in UnpaidAmong(s) {
      var j :| 0 <= j < |items| && items[j].OpenInvoice? && items[j].status.Unpaid? && items[j].id == i;
      assert s[j] == items[j];
    }
    assert s[|items|] == it;
  }

  lemma {:induction false} UnpaidListed(db: Db, n: Admin, k: nat)
    requires k <= |db.invoices|
    ensures UnpaidAmong(OpenItems(db.invoices, n, k)) == set i | i in UnpaidIds(db, n) && i < k
    ensures forall j :: 0 <= j < |OpenItems(db.invoices, n, k)| ==> OpenItems(db.invoices, n, k)[j].OpenInvoice?
  {
    if k > 0 {
      UnpaidListed(db, n, k - 1);
      var before, v := OpenItems(db.invoices, n, k - 1), db.invoices[k - 1];
      UnpaidPush(before, OpenInvoice(k - 1, v.Remaining(), v.status));
      var more: set<int> := if k - 1 in UnpaidIds(db, n) then {k - 1} else {};
      assert (set i | i in UnpaidIds(db, n) && i < k) == (set i | i in UnpaidIds(db, n) && i < k - 1) + more;
      assert before + [] == before;
    }
  }

  // ---- pay_all ----

  datatype Gathered = Gathered(db: Db, ids: set<int>)

  /** The unpaid invoices of the first k admins, as seen in db0, and a settlement invoice for each old balance. */
  function GatherUpTo(db0: Db, names: seq<Admin>, onPanel: set<Admin>, k: nat): Result<Gathered, Refusal>
    requires k <= |names|
  {
    if k == 0 then Ok(Gathered(db0, {}))
    else
      match GatherUpTo(db0, names, onPanel, k - 1)
      case Err(r) => Err(r)
      case Ok(g) =>
        var n := names[k - 1];
        var ids := g.ids + UnpaidIds(db0, n);
        if OldBalance(db0, n) <= 0 then Ok(Gathered(g.db, ids))
        else
          match IssueSettlement(g.db, n, n in onPanel)
          case Err(r) => Err(r)
          case Ok(d) => Ok(Gathered(d, ids + {|g.db.invoices|}))
  }

  datatype Expected = AnyTotal | Garbled | Exactly(total: int)

  datatype Order = Order(
    payerGiven: bool, names: seq<Admin>, onPanel: set<Admin>, expected: Expected,
    expires: int, taken: set<int>, extras: seq<int>)

  function CheckoutFor(o: Order, ids: set<int>): Checkout {
    Checkout(ids, (set n | n in o.names), o.expires, o.taken, o.extras)
  }

  /** The outcome; Mismatch is the branch the program guards against last of all. */
  datatype Outcome = Refused(why: Refusal) | Mismatch | Created(db: Db)

  function PayEverything(db: Db, o: Order): Outcome {
    var payable := Payable(db, o.names);
    if !o.payerGiven then Refused(Invalid)
    else if o.expected.Garbled? then Refused(Invalid)
    else if o.expected.Exactly? && o.expected.total != payable then Refused(TotalChanged)
    else if payable <= 0 then Refused(Nothing)
    else
      match GatherUpTo(db, o.names, o.onPanel, |o.names|)
      case Err(r) => Refused(r)
      case Ok(g) =>
        match CreatePayment(g.db, CheckoutFor(o, g.ids))
        case Err(r) => Refused(r)
        case Ok(d) =>
          if d.payments[|d.payments| - 1].amount != payable then Mismatch else Created(d)
  }

  // ---- gathering ----

  /** The gathered ids are exactly the unpaid invoices of the first k admins, old and new. */
  ghost predicate IdsOk(names: seq<Admin>, k: nat, g: Gathered)
    requires k <= |names|
  {
    && (forall i :: 0 <= i < |g.db.invoices| ==>
          (i in g.ids <==> g.db.invoices[i].status.Unpaid? && g.db.invoices[i].admin in names[..k]))
    && (forall i :: i in g.ids ==> 0 <= i < |g.db.invoices|)
  }

  /** Admin m's old balance became unpaid, and its open invoices are within the debt. */
  ghost predicate SettledFor(db0: Db, d: Db, m: Admin) {
    && UnpaidTotal(d, m) == UnpaidTotal(db0, m) + Max(0, OldBalance(db0, m))
    && OldBalance(d, m) == (if OldBalance(db0, m) > 0 then 0 else OldBalance(db0, m))
    && (OldBalance(db0, m) > 0 ==> OpenTotal(d, m) <= Debt(d, m))
  }

  ghost predicate UntouchedFor(db0: Db, d: Db, m: Admin) {
    SameFor(db0, d, m) && UnpaidTotal(d, m) == UnpaidTotal(db0, m) && OldBalance(d, m) == OldBalance(db0, m)
  }

  ghost predicate TotalsOk(db0: Db, names: seq<Admin>, k: nat, d: Db)
    requires k <= |names|
  {
    && (forall m :: m in names[..k] ==> SettledFor(db0, d, m))
    && (forall m :: m !in names[..k] ==> UntouchedFor(db0, d, m))
  }

  /** The invoices of db0, then settlement invoices of exactly the old balances. */
  ghost predicate ShapeOk(db0: Db, names: seq<Admin>, k: nat, d: Db)
    requires k <= |names|
  {
    && d.payments == db0.payments
    && |db0.invoices| <= |d.invoices|
    && (forall i :: 0 <= i < |db0.invoices| ==> d.invoices[i] == db0.invoices[i])
    && (forall i :: |db0.invoices| <= i < |d.invoices| ==>
          && d.invoices[i].kind.Settlement? && d.invoices[i].status.Unpaid? && d.invoices[i].admin in names[..k]
          && d.invoices[i].amount == OldBalance(db0, d.invoices[i].admin))
  }

  ghost predicate GatheredOk(db0: Db, names: seq<Admin>, k: nat, g: Gathered)
    requires k <= |names|
  {
    Keeps(db0, g.db) && IdsOk(names, k, g) && TotalsOk(db0, names, k, g.db) && ShapeOk(db0, names, k, g.db)
  }

  lemma {:induction false} SettlementUnpaid(db: Db, n: Admin, onPanel: bool, m: Admin)
    requires Inv(db) && OldBalance(db, n) > 0 && IssueSettlement(db, n, onPanel).Ok?
    ensures UnpaidTotal(IssueSettlement(db, n, onPanel).value, m)
         == UnpaidTotal(db, m) + if m == n then OldBalance(db, n) else 0
  {
    PushInvoiceTotals(db, n, Settlement, OldBalance(db, n), None, m);
  }

  lemma {:induction false} UnpaidHasRest(db: Db, n: Admin)
    requires Inv(db)
    ensures forall i :: 0 <= i < |db.invoices| ==>
              (i in UnpaidIds(db, n) <==> db.invoices[i].admin == n && db.invoices[i].status.Unpaid?)
  {
    forall i | 0 <= i < |db.invoices| && db.invoices[i].status.Unpaid? ensures db.invoices[i].Remaining() > 0 {
      assert InvoiceOk(db, i);
    }
  }

  lemma {:induction false} GatherStart(db0: Db, names: seq<Admin>)
    requires Inv(db0)
    ensures GatheredOk(db0, names, 0, Gathered(db0, {}))
  {
  }

  lemma {:induction false} PlainIds(db0: Db, names: seq<Admin>, k: nat, g: Gathered)
    requires Inv(db0) && k < |names|
    requires IdsOk(names, k, g) && ShapeOk(db0, names, k, g.db) && names[k] !in names[..k]
    ensures IdsOk(names, k + 1, Gathered(g.db, g.ids + UnpaidIds(db0, names[k])))
  {
    hide Inv;
    assert names[..k + 1] == names[..k] + [names[k]];
    UnpaidHasRest(db0, names[k]);
  }

  lemma {:induction false} SettledIds(db0: Db, names: seq<Admin>, k: nat, g: Gathered, amount: int)
    requires Inv(db0) && k < |names|
    requires IdsOk(names, k, g) && ShapeOk(db0, names, k, g.db) && names[k] !in names[..k]
    ensures IdsOk(names, k + 1, Gathered(PushInvoice(g.db, names[k], Settlement, amount, None),
                                         g.ids + UnpaidIds(db0, names[k]) + {|g.db.invoices|}))
  {
    hide Inv;
    assert names[..k + 1] == names[..k] + [names[k]];
    UnpaidHasRest(db0, names[k]);
  }

  /** One admin without an old balance. */
  lemma {:induction false} GatherPlain(db0: Db, names: seq<Admin>, k: nat, g: Gathered)
    requires Inv(db0) && k < |names| && names[k] !in names[..k]
    requires GatheredOk(db0, names, k, g) && OldBalance(db0, names[k]) <= 0
    ensures GatheredOk(db0, names, k + 1, Gathered(g.db, g.ids + UnpaidIds(db0, names[k])))
  {
    hide Keeps;
    hide Inv;
    hide IdsOk;
    PlainIds(db0, names, k, g);
    assert names[..k + 1] == names[..k] + [names[k]];
    assert UntouchedFor(db0, g.db, names[k]);
  }

  /** One admin with an old balance: the settlement invoice joins the checkout. */
  lemma {:induction false} GatherSettled(db0: Db, names: seq<Admin>, k: nat, g: Gathered, onPanel: bool)
    requires Inv(db0) && k < |names| && names[k] !in names[..k]
    requires GatheredOk(db0, names, k, g) && OldBalance(db0, names[k]) > 0
    ensures IssueSettlement(g.db, names[k], onPanel).Ok?
    ensures GatheredOk(db0, names, k + 1,
              Gathered(IssueSettlement(g.db, names[k], onPanel).value, g.ids + UnpaidIds(db0, names[k]) + {|g.db.invoices|}))
  {
    hide OldBalance;
    hide IssueSettlement;
    hide UnpaidIds;
    hide Balance;
    hide ReviewTotal;
    hide SameFor;
    hide Inv;
    hide IdsOk;
    hide SettledFor;
    hide WithinDebt;
    var n := names[k];
    assert UntouchedFor(db0, g.db, n);
    SettlementExact(g.db, n, onPanel);
    SettlementPushed(g.db, n, onPanel);
    SettledIds(db0, names, k, g, OldBalance(g.db, n));
    SettlementTotals(db0, names, k, g, onPanel);
    assert names[..k + 1] == names[..k] + [n];
  }

  lemma {:induction false} SettlementPushed(db: Db, n: Admin, onPanel: bool)
    requires IssueSettlement(db, n, onPanel).Ok?
    ensures IssueSettlement(db, n, onPanel).value == PushInvoice(db, n, Settlement, OldBalance(db, n), None)
  {
  }

  lemma {:induction false} SettlementTotals(db0: Db, names: seq<Admin>, k: nat, g: Gathered, onPanel: bool)
    requires Inv(g.db) && k < |names| && names[k] !in names[..k]
    requires TotalsOk(db0, names, k, g.db) && OldBalance(db0, names[k]) > 0
    requires IssueSettlement(g.db, names[k], onPanel).Ok?
    ensures TotalsOk(db0, names, k + 1, IssueSettlement(g.db, names[k], onPanel).value)
  {
    hide OldBalance;
    hide IssueSettlement;
    hide Inv;
    hide WithinDebt;
    var n := names[k];
    assert names[..k + 1] == names[..k] + [n];
    assert UntouchedFor(db0, g.db, n);
    SettlementExact(g.db, n, onPanel);
    var d := IssueSettlement(g.db, n, onPanel).value;
    forall m ensures UnpaidTotal(d, m) == UnpaidTotal(g.db, m) + if m == n then OldBalance(g.db, n) else 0 {
      SettlementUnpaid(g.db, n, onPanel, m);
    }
    forall m | m in names[..k + 1] ensures SettledFor(db0, d, m) {
      if m != n {
        assert SettledFor(db0, g.db, m) && SameFor(g.db, d, m);
      }
    }
    forall m | m !in names[..k + 1] ensures UntouchedFor(db0, d, m) {
      assert m !in names[..k] && m != n;
      assert UntouchedFor(db0, g.db, m) && SameFor(g.db, d, m);
    }
  }

  lemma {:induction false} GatherAll(db0: Db, names: seq<Admin>, onPanel: set<Admin>, k: nat)
    requires Inv(db0) && k <= |names| && NoDup(names)
    ensures GatherUpTo(db0, names, onPanel, k).Ok?
    ensures GatheredOk(db0, names, k, GatherUpTo(db0, names, onPanel, k).value)
  {
    hide Inv;
    hide GatheredOk;
    hide IssueSettlement;
    hide OldBalance;
    if k == 0 {
      GatherStart(db0, names);
    } else {
      GatherAll(db0, names, onPanel, k - 1);
      assert names[k - 1] !in names[..k - 1];
      var g := GatherUpTo(db0, names, onPanel, k - 1).value;
      if OldBalance(db0, names[k - 1]) <= 0 {
        GatherPlain(db0, names, k - 1, g);
      } else {
        GatherSettled(db0, names, k - 1, g, names[k - 1] in onPanel);
      }
    }
  }

  // ---- the total ----

  function UnpaidIn(invoices: seq<Invoice>): Admin -> int {
    (n: Admin) => Sum(invoices, UnpaidOf(n))
  }

  /** A checkout of exactly the unpaid invoices of some admins costs what they have unpaid. */
  lemma {:induction false} UnpaidPushed(invoices: seq<Invoice>, v: Invoice, n: Admin)
    ensures UnpaidIn(invoices + [v])(n) == UnpaidIn(invoices)(n) + if n == v.admin && v.status.Unpaid? then v.Remaining() else 0
  {
    SumPush(invoices, v, UnpaidOf(n));
  }

  lemma {:induction false} ItemsPushed(invoices: seq<Invoice>, ids: set<int>, k: nat)
    requires k < |invoices|
    ensures Sum(ItemsOf(invoices, ids, k + 1), ItemAmount())
         == Sum(ItemsOf(invoices, ids, k), ItemAmount()) + if k in ids then invoices[k].Remaining() else 0
  {
    if k in ids {
      SumFront(ItemsOf(invoices, ids, k + 1), ItemAmount());
    }
  }

  lemma {:induction false} NoItems(invoices: seq<Invoice>, ids: set<int>, names: seq<Admin>)
    ensures Sum(ItemsOf(invoices, ids, 0), ItemAmount()) == Sum(names, UnpaidIn([])) == 0
  {
    SumZero(names, UnpaidIn([]));
  }

  lemma {:induction false} ItemsTotal(invoices: seq<Invoice>, ids: set<int>, names: seq<Admin>, k: nat)
    requires NoDup(names) && k <= |invoices|
    requires forall i :: 0 <= i < |invoices| ==> (i in ids <==> invoices[i].status.Unpaid? && invoices[i].admin in names)
    ensures Sum(ItemsOf(invoices, ids, k), ItemAmount()) == Sum(names, UnpaidIn(invoices[..k]))
  {
    hide Sum, ItemsOf, ItemAmount, UnpaidIn;
    if k == 0 {
      NoItems(invoices, ids, names);
      assert invoices[..0] == [];
    } else {
      ItemsTotal(invoices, ids, names, k - 1);
      ItemsPushed(invoices, ids, k - 1);
      var v := invoices[k - 1];
      assert invoices[..k] == invoices[..k - 1] + [v];
      var x := if v.status.Unpaid? then v.Remaining() else 0;
      forall j | 0 <= j < |names|
        ensures UnpaidIn(invoices[..k])(names[j]) == UnpaidIn(invoices[..k - 1])(names[j]) + if names[j] == v.admin then x else 0
      {
        UnpaidPushed(invoices[..k - 1], v, names[j]);
      }
      SumOneMore(names, UnpaidIn(invoices[..k - 1]), UnpaidIn(invoices[..k]), v.admin, x);
    }
  }

  lemma {:induction false} GatheredTotal(db0: Db, names: seq<Admin>, g: Gathered)
    requires NoDup(names) && GatheredOk(db0, names, |names|, g)
    ensures Sum(ItemsOf(g.db.invoices, g.ids, |g.db.invoices|), ItemAmount()) == Payable(db0, names)
  {
    assert names[..|names|] == names;
    assert g.db.invoices[..|g.db.invoices|] == g.db.invoices;
    ItemsTotal(g.db.invoices, g.ids, names, |g.db.invoices|);
    forall j | 0 <= j < |names| ensures UnpaidIn(g.db.invoices)(names[j]) == PayableOf(db0)(names[j]) {
      assert names[j] in names[..|names|];
      assert SettledFor(db0, g.db, names[j]);
    }
    SumEqual(names, UnpaidIn(g.db.invoices), names, PayableOf(db0));
  }

  /** The last guard of pay_all can never fire: the checkout is for exactly the payable total. It is
      refused only for a missing payer, an unreadable or outdated total, nothing to pay, or no free
      unique amount. */
  lemma {:induction false} PayAllExact(db: Db, o: Order)
    requires Inv(db) && NoDup(o.names)
    ensures !PayEverything(db, o).Mismatch?
    ensures var payable := Payable(db, o.names);
            PayEverything(db, o).Created? <==>
              && o.payerGiven && !o.expected.Garbled? && (o.expected.Exactly? ==> o.expected.total == payable)
              && payable > 0
              && PayEverything(db, o) != Refused(Busy)
    ensures PayEverything(db, o).Created? ==>
              var d := PayEverything(db, o).db;
              && d.payments != [] && d.payments[|d.payments| - 1].amount == Payable(db, o.names)
  {
    hide Inv;
    hide GatheredOk;
    hide CreatePayment;
    hide Payable;
    hide GatherUpTo;
    GatherAll(db, o.names, o.onPanel, |o.names|);
    var g := GatherUpTo(db, o.names, o.onPanel, |o.names|).value;
    GatheredTotal(db, o.names, g);
    assert o.names[..|o.names|] == o.names;
    if Payable(db, o.names) > 0 {
      GatheredPayable(db, o, g);
    }
  }

  lemma {:induction false} GatheredPayable(db: Db, o: Order, g: Gathered)
    requires GatheredOk(db, o.names, |o.names|, g) && o.names[..|o.names|] == o.names
    requires Sum(ItemsOf(g.db.invoices, g.ids, |g.db.invoices|), ItemAmount()) > 0
    ensures var r := CreatePayment(g.db, CheckoutFor(o, g.ids));
            || r == Err(Busy)
            || (r.Ok? && r.value.payments != []
                && r.value.payments[|r.value.payments| - 1].amount
                   == Sum(ItemsOf(g.db.invoices, g.ids, |g.db.invoices|), ItemAmount()))
  {
    hide TotalsOk;
    hide ShapeOk;
    hide Inv;
    var items := ItemsOf(g.db.invoices, g.ids, |g.db.invoices|);
    assert items != [];
    assert items[0].invoice in g.ids;
  }

  /** After pay_all every old balance of the group is an invoice of exactly that amount, nothing is left
      to settle a second time, and everyone's open invoices are as much within the debt as before. */
  lemma {:induction false} PayAllKeeps(db: Db, o: Order)
    requires Inv(db) && NoDup(o.names) && PayEverything(db, o).Created?
    ensures var d := PayEverything(db, o).db;
            && Keeps(db, d)
            && (forall m :: m in o.names ==> OldBalance(d, m) <= 0)
            && (forall m :: m in o.names && OldBalance(db, m) > 0 ==>
                  OldBalance(d, m) == 0 && OpenTotal(d, m) <= Debt(d, m)
                  && OpenTotal(d, m) == OpenTotal(db, m) + OldBalance(db, m))
            && (forall i :: |db.invoices| <= i < |d.invoices| ==>
                  d.invoices[i].kind.Settlement? && d.invoices[i].amount == OldBalance(db, d.invoices[i].admin))
  {
    hide Inv;
    hide WithinDebt;
    hide Payable;
    GatherAll(db, o.names, o.onPanel, |o.names|);
    assert o.names[..|o.names|] == o.names;
    var g := GatherUpTo(db, o.names, o.onPanel, |o.names|).value;
    var d := PayEverything(db, o).db;
    CreatePaymentKeeps(g.db, CheckoutFor(o, g.ids));
    CreatePaymentFrame(g.db, CheckoutFor(o, g.ids));
    forall m | WithinDebt(db, m) ensures WithinDebt(d, m) { assert WithinDebt(g.db, m); }
    forall m | m in o.names ensures SettledFor(db, g.db, m) {}
    forall m | m in o.names && OldBalance(db, m) > 0 ensures OpenTotal(d, m) == OpenTotal(db, m) + OldBalance(db, m) {
      SettledOpen(db, o.names, g.db, m);
    }
  }

  lemma {:induction false} CreatePaymentFrame(db: Db, c: Checkout)
    requires CreatePayment(db, c).Ok?
    ensures CreatePayment(db, c).value == db.(payments := CreatePayment(db, c).value.payments)
  {
  }

  /** What is under review does not move, so the open total grows by what became unpaid. */
  lemma {:induction false} SettledOpen(db: Db, names: seq<Admin>, d: Db, m: Admin)
    requires ShapeOk(db, names, |names|, d) && SettledFor(db, d, m)
    ensures OpenTotal(d, m) == OpenTotal(db, m) + Max(0, OldBalance(db, m))
  {
    var k := |db.invoices|;
    var tail := d.invoices[k..];
    assert d.invoices == db.invoices + tail;
    SumConcat(db.invoices, tail, ReviewOf(m));
    forall j | 0 <= j < |tail| ensures ReviewOf(m)(tail[j]) == 0 {
      assert tail[j] == d.invoices[k + j];
    }
    SumZero(tail, ReviewOf(m));
    OpenSplits(db.invoices, m);
    OpenSplits(d.invoices, m);
  }
}
