// Volume given by group managers, or asked for by admins, and the staff's answers.
module Approvals {
  import opened Wrappers
  import opened Basics
  import opened Records
  import opened Sums
  import opened Books
  import opened Settling
  import opened Enforcement
  import opened Ledger
  import opened Pricing
  import AgencyEngine

  const MAX_GB := 100000000     // hundredths of a GB

  datatype RequestKind = NewAdmin | AddedVolume | AdminRequest

  datatype RequestStatus = Waiting | Granted | Refused

  /** gb is in hundredths of a GB; an approved request has its charge, and the price per GB the charge was made at. */
  datatype Request = Request(
    kind: RequestKind, manager: Option<nat>, admin: Admin, gb: nat,
    oldBytes: int, newBytes: int, status: RequestStatus, charge: Option<nat>, price: Option<nat>)

  /** The local copy of an admin's limit. */
  datatype Limits = Limits(bytes: int, limited: bool, last: int)
  {
    function Base(): int {
      if limited && bytes > 0 then bytes else last
    }
  }

  datatype Desk = Desk(
    panel: map<Admin, int>, rows: map<Admin, Limits>, caps: map<nat, nat>, requests: seq<Request>, books: Db)

  function Bytes(gb: nat): nat { gb * GIB / 100 }

  function Finite(bytes: int): Limits { Limits(bytes, true, bytes) }

  // ---- weights ----

  /** The volume a request keeps on the panel: given volume unless refused, asked volume once granted. */
  function LiveOf(n: Admin): Request -> int {
    (r: Request) =>
      if r.admin == n && (if r.kind.AdminRequest? then r.status.Granted? else !r.status.Refused?) then Bytes(r.gb) else 0
  }

  function PendingOf(m: nat): Request -> int {
    (r: Request) => if r.manager == Some(m) && r.status.Waiting? then r.gb else 0
  }

  /** The part of a manager's pending volume that it gave itself. */
  function GivenOf(m: nat): Request -> int {
    (r: Request) => if r.manager == Some(m) && r.status.Waiting? && !r.kind.AdminRequest? then r.gb else 0
  }

  function GrantedOf(): Request -> int { (r: Request) => if r.status.Granted? then 1 else 0 }

  function AskedOf(n: Admin): Request -> int {
    (r: Request) => if r.admin == n && r.kind.AdminRequest? && r.status.Waiting? then 1 else 0
  }

  // ---- what managers and admins do ----

  predicate OverCap(d: Desk, m: nat, gb: int) {
    m in d.caps && Sum(d.requests, PendingOf(m)) + gb > d.caps[m]
  }

  function CheckVolume(d: Desk, m: nat, gb: int): Option<Refusal> {
    if gb <= 0 then Some(Forbidden)
    else if gb > MAX_GB then Some(Invalid)
    else if OverCap(d, m, gb) then Some(Conflict)
    else None
  }

  /** Creating the admin, once the cap is checked. */
  function MakeAdmin(d: Desk, m: nat, n: Admin, gb: nat, panelOk: bool): Result<Desk, Refusal> {
    if n in d.rows || n in d.panel || !panelOk then Err(Conflict)
    else
      var bytes := Bytes(gb);
      Ok(d.(panel := d.panel[n := bytes], rows := d.rows[n := Limits(bytes, bytes > 0, bytes)],
            requests := d.requests + [Request(NewAdmin, Some(m), n, gb, 0, bytes, Waiting, None, None)]))
  }

  function CreateAdmin(d: Desk, m: nat, n: Admin, gb: int, panelOk: bool): Result<Desk, Refusal> {
    if CheckVolume(d, m, gb).Some? then Err(CheckVolume(d, m, gb).value) else MakeAdmin(d, m, n, gb, panelOk)
  }

  function SetRow(rows: map<Admin, Limits>, n: Admin, bytes: int): map<Admin, Limits> {
    if n in rows then rows[n := Finite(bytes)] else rows
  }

  /** Raising the limit, once the cap is checked. */
  function GiveVolume(d: Desk, m: nat, n: Admin, gb: nat, panelOk: bool): Result<Desk, Refusal> {
    if n !in d.panel then Err(NotFound)
    else if d.panel[n] <= 0 then Err(Forbidden)
    else if !panelOk then Err(Busy)
    else
      var live := d.panel[n];
      var bytes := live + Bytes(gb);
      Ok(d.(panel := d.panel[n := bytes], rows := SetRow(d.rows, n, bytes),
            requests := d.requests + [Request(AddedVolume, Some(m), n, gb, live, bytes, Waiting, None, None)]))
  }

  function AddVolume(d: Desk, m: nat, n: Admin, gb: int, panelOk: bool): Result<Desk, Refusal> {
    if CheckVolume(d, m, gb).Some? then Err(CheckVolume(d, m, gb).value) else GiveVolume(d, m, n, gb, panelOk)
  }

  const MAX_ASKED := 5

  function AskVolume(d: Desk, m: Option<nat>, n: Admin, gb: int, priced: bool): Result<Desk, Refusal> {
    if gb <= 0 || gb > MAX_GB then Err(Invalid)
    else if n !in d.rows then Err(NotFound)
    else if !priced then Err(NoPrice)
    else if Sum(d.requests, AskedOf(n)) >= MAX_ASKED then Err(Conflict)
    else
      var base := d.rows[n].Base();
      Ok(d.(requests := d.requests + [Request(AdminRequest, m, n, gb, base, base + Bytes(gb), Waiting, None, None)]))
  }

  // ---- what staff decide ----

  /** Prices per GB on the day of the request and today. */
  datatype Prices = Prices(onDay: Option<nat>, today: Option<nat>)

  ghost function ChargeFor(d: Desk, k: nat, r: Request, price: nat): Desk
    requires k < |d.requests|
  {
    var amount := ChargeAmount(Max(0, r.newBytes - r.oldBytes), price);
    d.(books := ChargeVolume(d.books, r.admin, amount, RequestInvoice),
       requests := d.requests[k := r.(status := Granted, charge := Some(|d.books.entries|), price := Some(price))])
  }

  ghost function Grant(d: Desk, k: nat, prices: Prices, panelOk: bool): Result<Desk, Refusal> {
    if k >= |d.requests| then Err(NotFound)
    else
      var r := d.requests[k];
      if !r.status.Waiting? then Err(Conflict)
      else if prices.onDay.None? then Err(NoPrice)
      else if !r.kind.AdminRequest? then Ok(ChargeFor(d, k, r, prices.onDay.value))
      else if r.admin !in d.rows then Err(NotFound)
      else if prices.today.None? then Err(NoPrice)
      else if r.admin !in d.panel then Err(NotFound)
      else if !panelOk then Err(Busy)
      else
        var live := d.panel[r.admin];
        var base := if live > 0 then live else d.rows[r.admin].Base();
        var bytes := base + Bytes(r.gb);
        var d' := d.(panel := d.panel[r.admin := bytes], rows := d.rows[r.admin := Finite(bytes)]);
        Ok(ChargeFor(d', k, r.(oldBytes := base, newBytes := bytes), prices.today.value))
  }

  function Refuse(d: Desk, k: nat, panelOk: bool): Result<Desk, Refusal> {
    if k >= |d.requests| then Err(NotFound)
    else
      var r := d.requests[k];
      if !r.status.Waiting? then Err(Conflict)
      else if r.kind.AdminRequest? then Ok(d.(requests := d.requests[k := r.(status := Refused)]))
      else if r.admin !in d.panel then Err(NotFound)
      else if d.panel[r.admin] <= 0 then Err(Conflict)
      else if !panelOk then Err(Busy)
      else
        var target := Max(1, d.panel[r.admin] - Bytes(r.gb));
        Ok(d.(panel := d.panel[r.admin := target], rows := SetRow(d.rows, r.admin, target),
              requests := d.requests[k := r.(status := Refused)]))
  }

  // ---- runs ----

  datatype Event =
    | Create(manager: nat, admin: Admin, gb: int, panelOk: bool)
    | Add(manager: nat, admin: Admin, gb: int, panelOk: bool)
    | Ask(asker: Option<nat>, admin: Admin, gb: int, priced: bool)
    | Approve(request: nat, prices: Prices, panelOk: bool)
    | Reject(request: nat, panelOk: bool)

  ghost function Step(d: Desk, ev: Event): Desk {
    match ev
    case Create(m, n, gb, ok) => Settle(d, CreateAdmin(d, m, n, gb, ok))
    case Add(m, n, gb, ok) => Settle(d, AddVolume(d, m, n, gb, ok))
    case Ask(m, n, gb, priced) => Settle(d, AskVolume(d, m, n, gb, priced))
    case Approve(k, prices, ok) => Settle(d, Grant(d, k, prices, ok))
    case Reject(k, ok) => Settle(d, Refuse(d, k, ok))
  }

  ghost function Run(d: Desk, events: seq<Event>): Desk {
    if events == [] then d else Step(Run(d, events[..|events| - 1]), events[|events| - 1])
  }

  // ---- the live limit ----

  lemma {:induction false} RequestPush(requests: seq<Request>, r: Request, f: Request -> int)
    ensures Sum(requests + [r], f) == Sum(requests, f) + f(r)
  {
    SumPush(requests, r, f);
  }

  /** Admin n's limit is finite, this start and its volume that counts; the panel and the local copy agree on it. */
  ghost predicate LimitIs(d: Desk, n: Admin, start: int) {
    && start >= 0
    && n in d.panel
    && d.panel[n] == start + Sum(d.requests, LiveOf(n)) > 0
    && (n in d.rows ==> d.rows[n] == Finite(d.panel[n]))
  }

  lemma {:induction false} LiveNonNegative(requests: seq<Request>, n: Admin)
    ensures Sum(requests, LiveOf(n)) >= 0
    ensures forall k :: 0 <= k < |requests| ==> LiveOf(n)(requests[k]) <= Sum(requests, LiveOf(n))
  {
    SumMember(requests, LiveOf(n));
  }

  lemma {:induction false} LimitCreate(d: Desk, m: nat, x: Admin, gb: int, ok: bool, n: Admin, start: int)
    requires LimitIs(d, n, start) && CreateAdmin(d, m, x, gb, ok).Ok?
    ensures LimitIs(CreateAdmin(d, m, x, gb, ok).value, n, start)
  {
    hide Bytes;
    hide Sum;
    RequestPush(d.requests, CreateAdmin(d, m, x, gb, ok).value.requests[|d.requests|], LiveOf(n));
  }

  lemma {:induction false} LimitAdd(d: Desk, m: nat, x: Admin, gb: int, ok: bool, n: Admin, start: int)
    requires LimitIs(d, n, start) && AddVolume(d, m, x, gb, ok).Ok?
    ensures LimitIs(AddVolume(d, m, x, gb, ok).value, n, start)
  {
    hide Bytes;
    hide Sum;
    RequestPush(d.requests, AddVolume(d, m, x, gb, ok).value.requests[|d.requests|], LiveOf(n));
  }

  lemma {:induction false} LimitAsk(d: Desk, m: Option<nat>, x: Admin, gb: int, priced: bool, n: Admin, start: int)
    requires LimitIs(d, n, start) && AskVolume(d, m, x, gb, priced).Ok?
    ensures LimitIs(AskVolume(d, m, x, gb, priced).value, n, start)
  {
    hide Bytes;
    hide Sum;
    var r := AskVolume(d, m, x, gb, priced).value.requests[|d.requests|];
    RequestPush(d.requests, r, LiveOf(n));
    assert LiveOf(n)(r) == 0;
  }

  lemma {:induction false} LimitGrant(d: Desk, k: nat, prices: Prices, ok: bool, n: Admin, start: int)
    requires LimitIs(d, n, start) && Grant(d, k, prices, ok).Ok?
    ensures LimitIs(Grant(d, k, prices, ok).value, n, start)
  {
    hide Bytes;
    hide ChargeVolume;
    hide ChargeAmount;
    LiveNonNegative(d.requests, n);
    SumUpdate(d.requests, k, Grant(d, k, prices, ok).value.requests[k], LiveOf(n));
  }

  /** A refusal that takes back all the limit there is, and so leaves one byte. */
  ghost predicate Clamped(d: Desk, ev: Event, n: Admin) {
    && ev.Reject? && ev.request < |d.requests| && d.requests[ev.request].admin == n && !d.requests[ev.request].kind.AdminRequest?
    && Refuse(d, ev.request, ev.panelOk).Ok?
    && n in d.panel && d.panel[n] - Bytes(d.requests[ev.request].gb) < 1
  }

  /** Refused volume was part of the limit, so taking it back leaves the start at least; and one byte if the start was nothing. */
  lemma {:induction false} LimitRefuse(d: Desk, k: nat, ok: bool, n: Admin, start: int)
    requires LimitIs(d, n, start) && Refuse(d, k, ok).Ok?
    ensures LimitIs(Refuse(d, k, ok).value, n, start + if Clamped(d, Reject(k, ok), n) then 1 else 0)
    ensures start > 0 ==> !Clamped(d, Reject(k, ok), n)
  {
    hide Bytes;
    LiveNonNegative(d.requests, n);
    assert LiveOf(n)(d.requests[k]) <= Sum(d.requests, LiveOf(n));
    SumUpdate(d.requests, k, Refuse(d, k, ok).value.requests[k], LiveOf(n));
    LiveNonNegative(Refuse(d, k, ok).value.requests, n);
  }

  lemma {:induction false} LimitStep(d: Desk, ev: Event, n: Admin, start: int)
    requires LimitIs(d, n, start)
    ensures LimitIs(Step(d, ev), n, start + if Clamped(d, ev, n) then 1 else 0)
    ensures start > 0 ==> !Clamped(d, ev, n)
  {
    hide LimitIs;
    hide Grant;
    hide Refuse;
    hide CreateAdmin;
    hide AddVolume;
    hide AskVolume;
    if Step(d, ev) != d {
      match ev
      case Create(m, x, gb, ok) => LimitCreate(d, m, x, gb, ok, n, start);
      case Add(m, x, gb, ok) => LimitAdd(d, m, x, gb, ok, n, start);
      case Ask(m, x, gb, priced) => LimitAsk(d, m, x, gb, priced, n, start);
      case Approve(k, prices, ok) => LimitGrant(d, k, prices, ok, n, start);
      case Reject(k, ok) => LimitRefuse(d, k, ok, n, start);
    } else {
      RefusalChanges(d, ev);
    }
  }

  /** An accepted refusal changes its request. */
  lemma {:induction false} RefusalChanges(d: Desk, ev: Event)
    ensures ev.Reject? && Refuse(d, ev.request, ev.panelOk).Ok? ==> Step(d, ev) != d
  {
    hide Bytes;
    if ev.Reject? && Refuse(d, ev.request, ev.panelOk).Ok? {
      assert Step(d, ev).requests[ev.request].status.Refused?;
    }
  }

  /** Over every run, an admin's live limit is its finite start plus the volume of its requests that count,
      and it never becomes unlimited. */
  lemma {:induction false} LimitOverRun(d: Desk, events: seq<Event>, n: Admin)
    requires n in d.panel && d.panel[n] > 0 && d.requests == []
    requires n in d.rows ==> d.rows[n] == Finite(d.panel[n])
    ensures var e := Run(d, events);
            && LimitIs(e, n, d.panel[n])
            && e.panel[n] > 0
  {
    if events != [] {
      LimitOverRun(d, events[..|events| - 1], n);
      LimitStep(Run(d, events[..|events| - 1]), events[|events| - 1], n, d.panel[n]);
    }
    LiveNonNegative(Run(d, events).requests, n);
  }

  /** No step makes a finite limit unlimited, not even for an admin that a manager created. */
  lemma {:induction false} NeverUnlimited(d: Desk, ev: Event, n: Admin)
    requires n in d.panel ==> d.panel[n] > 0
    ensures n in Step(d, ev).panel ==> Step(d, ev).panel[n] > 0
  {
  }

  /** How many refusals in a run left one byte. */
  ghost function Clamps(d: Desk, events: seq<Event>, n: Admin): nat {
    if events == [] then 0
    else
      var before := events[..|events| - 1];
      Clamps(d, before, n) + if Clamped(Run(d, before), events[|events| - 1], n) then 1 else 0
  }

  /** An admin that does not exist yet. */
  ghost predicate Unknown(d: Desk, n: Admin) {
    n !in d.panel && n !in d.rows && forall k :: 0 <= k < |d.requests| ==> d.requests[k].admin != n
  }

  lemma {:induction false} UnknownStep(d: Desk, ev: Event, n: Admin)
    requires Unknown(d, n)
    ensures !Clamped(d, ev, n)
    ensures if n in Step(d, ev).panel then LimitIs(Step(d, ev), n, 0) else Unknown(Step(d, ev), n)
  {
    hide Sum;
    hide ChargeVolume;
    hide ChargeAmount;
    var d' := Step(d, ev);
    if ev.Create? && ev.admin == n && d' != d {
      assert ev.gb * GIB / 100 >= GIB / 100 by { assert ev.gb * GIB >= GIB; }
      hide Bytes;
      NoneLive(d.requests, n);
      RequestPush(d.requests, d'.requests[|d.requests|], LiveOf(n));
    }
  }

  lemma {:induction false} NoneLive(requests: seq<Request>, n: Admin)
    requires forall k :: 0 <= k < |requests| ==> requests[k].admin != n
    ensures Sum(requests, LiveOf(n)) == 0
  {
    SumZero(requests, LiveOf(n));
  }

  /** Over every run, an admin that a manager creates in it has as live limit its volume that counts, plus one byte
      exactly if some refusal took back all it had; that happens at most once. One byte, since zero would mean unlimited. */
  lemma {:induction false} RefusedCreation(d: Desk, events: seq<Event>, n: Admin)
    requires Unknown(d, n)
    ensures Clamps(d, events, n) <= 1
    ensures var e := Run(d, events);
            if n in e.panel then
              && e.panel[n] == Sum(e.requests, LiveOf(n)) + Clamps(d, events, n) > 0
              && (n in e.rows ==> e.rows[n] == Finite(e.panel[n]))
            else Unknown(e, n) && Clamps(d, events, n) == 0
  {
    hide Step;
    hide Clamped;
    if events != [] {
      var before, ev := events[..|events| - 1], events[|events| - 1];
      var m := Run(d, before);
      RefusedCreation(d, before, n);
      if n in m.panel {
        LimitStep(m, ev, n, Clamps(d, before, n));
      } else {
        UnknownStep(m, ev, n);
      }
    }
  }

  // ---- one decision each ----

  /** A decided request never changes again, and deciding it again is refused. */
  lemma {:induction false} DecidedOnce(d: Desk, events: seq<Event>, k: nat)
    requires k < |d.requests| && !d.requests[k].status.Waiting?
    ensures var e := Run(d, events);
            && |e.requests| >= |d.requests|
            && e.requests[k] == d.requests[k]
            && (forall prices, ok :: Grant(e, k, prices, ok) == Err(Conflict))
            && (forall ok :: Refuse(e, k, ok) == Err(Conflict))
  {
    if events != [] {
      DecidedOnce(d, events[..|events| - 1], k);
    }
  }

  // ---- charges ----

  /** Every granted request has its own charge, nothing else has one, and a charge above zero has its invoice;
      a request raises the limit by its volume. */
  ghost predicate ChargesOk(d: Desk, first: nat) {
    && Inv(d.books)
    && |d.books.entries| == first + Sum(d.requests, GrantedOf())
    && (forall k :: 0 <= k < |d.requests| ==> (d.requests[k].charge.Some? <==> d.requests[k].status.Granted?))
    && (forall k :: 0 <= k < |d.requests| ==> d.requests[k].newBytes == d.requests[k].oldBytes + Bytes(d.requests[k].gb))
    && (forall k :: 0 <= k < |d.requests| && d.requests[k].charge.Some? ==> ChargedFor(d.books, d.requests[k], first))
    && (forall j, k :: 0 <= j < k < |d.requests| && d.requests[j].charge.Some? ==> d.requests[j].charge != d.requests[k].charge)
  }

  /** The charge is for the volume asked or given, at the price of its approval, and so is its invoice. */
  ghost predicate ChargedFor(books: Db, r: Request, first: nat)
    requires r.charge.Some?
  {
    var e := r.charge.value;
    && first <= e < |books.entries| && r.price.Some?
    && books.entries[e].kind.QuotaCharge? && books.entries[e].admin == r.admin
    && books.entries[e].amount == ChargeAmount(Bytes(r.gb), r.price.value)
    && (books.entries[e].amount > 0 ==> Invoiced(books, e, books.entries[e].amount))
  }

  ghost predicate Invoiced(books: Db, e: nat, amount: int) {
    exists i :: 0 <= i < |books.invoices| && books.invoices[i].entry == Some(e) && books.invoices[i].amount == amount
  }

  /** The books after a charge: one more entry, and its invoice if it is above zero. */
  lemma {:induction false} ChargeShape(db: Db, n: Admin, amount: nat)
    requires Inv(db)
    ensures var d := ChargeVolume(db, n, amount, RequestInvoice);
            && Inv(d)
            && d.entries == db.entries + [Entry(n, EntryKind.QuotaCharge, amount, db.now, false)]
            && |d.invoices| == |db.invoices| + (if amount > 0 then 1 else 0)
            && (forall i :: 0 <= i < |db.invoices| ==>
                  d.invoices[i].entry == db.invoices[i].entry && d.invoices[i].amount == db.invoices[i].amount)
            && (amount > 0 ==> d.invoices[|db.invoices|].entry == Some(|db.entries|)
                               && d.invoices[|db.invoices|].amount == amount)
  {
    hide Inv;
    hide Enforce;
    ChargeKeeps(db, n, EntryKind.QuotaCharge, amount, RequestInvoice);
    PushEntryKeeps(db, n, EntryKind.QuotaCharge, amount);
    if amount > 0 {
      var d0 := PushEntry(db, n, EntryKind.QuotaCharge, amount);
      var d1 := PushInvoice(d0, n, RequestInvoice, amount, Some(|db.entries|));
      PushInvoiceKeeps(d0, n, RequestInvoice, amount, Some(|db.entries|));
      EnforceExact(d1, n);
      var d := Enforce(d1, n);
      forall i | 0 <= i < |d1.invoices| ensures d.invoices[i].entry == d1.invoices[i].entry && d.invoices[i].amount == d1.invoices[i].amount {
        assert Grown(d1.invoices[i], d.invoices[i]);
      }
    }
  }

  lemma {:induction false} ChargedForLater(books: Db, books': Db, r: Request, first: nat)
    requires r.charge.Some? && ChargedFor(books, r, first)
    requires books.entries <= books'.entries && |books.invoices| <= |books'.invoices|
    requires forall i :: 0 <= i < |books.invoices| ==>
               books'.invoices[i].entry == books.invoices[i].entry && books'.invoices[i].amount == books.invoices[i].amount
    ensures ChargedFor(books', r, first)
  {
    var e := r.charge.value;
    assert books'.entries[e] == books.entries[e];
    if books.entries[e].amount > 0 {
      var i :| 0 <= i < |books.invoices| && books.invoices[i].entry == Some(e) && books.invoices[i].amount == books.entries[e].amount;
      assert books'.invoices[i].entry == Some(e);
    }
  }

  /** One request granted and charged: what its charge needs to count. */
  lemma {:induction false} ChargedNow(books: Db, books': Db, r: Request, amount: nat, first: nat)
    requires r.charge == Some(|books.entries|) && first <= |books.entries|
    requires r.price.Some? && amount == ChargeAmount(Bytes(r.gb), r.price.value)
    requires books'.entries == books.entries + [Entry(r.admin, EntryKind.QuotaCharge, amount, books.now, false)]
    requires |books'.invoices| == |books.invoices| + (if amount > 0 then 1 else 0)
    requires amount > 0 ==>
               books'.invoices[|books.invoices|].entry == Some(|books.entries|) && books'.invoices[|books.invoices|].amount == amount
    ensures ChargedFor(books', r, first)
  {
    hide ChargeAmount;
    hide Bytes;
  }

  lemma {:induction false} ChargesStillOk(d: Desk, d': Desk, k: nat, r: Request, first: nat)
    requires ChargesOk(d, first) && k < |d.requests| && d.requests[k].status.Waiting?
    requires d'.requests == d.requests[k := r] && r.status.Granted? && r.charge == Some(|d.books.entries|)
    requires Inv(d'.books) && |d'.books.entries| == |d.books.entries| + 1 && d.books.entries <= d'.books.entries
    requires r.newBytes == r.oldBytes + Bytes(r.gb)
    requires |d.books.invoices| <= |d'.books.invoices|
    requires forall i :: 0 <= i < |d.books.invoices| ==>
               d'.books.invoices[i].entry == d.books.invoices[i].entry && d'.books.invoices[i].amount == d.books.invoices[i].amount
    requires ChargedFor(d'.books, r, first)
    ensures ChargesOk(d', first)
  {
    hide Inv;
    hide Bytes;
    hide ChargeAmount;
    SumUpdate(d.requests, k, r, GrantedOf());
    forall j | 0 <= j < |d'.requests| && d'.requests[j].charge.Some? ensures ChargedFor(d'.books, d'.requests[j], first) {
      if j != k {
        assert d'.requests[j] == d.requests[j];
        ChargedForLater(d.books, d'.books, d.requests[j], first);
      }
    }
    forall j | 0 <= j < |d.requests| && j != k && d'.requests[j].charge.Some? ensures d'.requests[j].charge != r.charge {
      assert ChargedFor(d.books, d.requests[j], first);
    }
  }

  lemma {:induction false} GrantCharges(d: Desk, k: nat, prices: Prices, ok: bool, first: nat)
    requires ChargesOk(d, first) && Grant(d, k, prices, ok).Ok?
    ensures ChargesOk(Grant(d, k, prices, ok).value, first)
  {
    hide Inv;
    hide ChargeVolume;
    hide ChargeAmount;
    hide Bytes;
    hide ChargedFor;
    var d' := Grant(d, k, prices, ok).value;
    var r' := d'.requests[k];
    var price := if d.requests[k].kind.AdminRequest? then prices.today.value else prices.onDay.value;
    var amount := ChargeAmount(Max(0, r'.newBytes - r'.oldBytes), price);
    ChargeShape(d.books, r'.admin, amount);
    GrantedNonNegative(d.requests);
    ChargedNow(d.books, d'.books, r', amount, first);
    ChargesStillOk(d, d', k, r', first);
  }

  lemma {:induction false} GrantedNonNegative(requests: seq<Request>)
    ensures Sum(requests, GrantedOf()) >= 0
  {
    SumMember(requests, GrantedOf());
  }

  /** A new request has no charge, and asking or giving books nothing. */
  lemma {:induction false} ChargesPush(d: Desk, d': Desk, r: Request, first: nat)
    requires ChargesOk(d, first)
    requires d'.books == d.books && d'.requests == d.requests + [r] && r.status.Waiting? && r.charge.None?
    requires r.newBytes == r.oldBytes + Bytes(r.gb)
    ensures ChargesOk(d', first)
  {
    hide Inv;
    hide ChargedFor;
    hide Bytes;
    RequestPush(d.requests, r, GrantedOf());
  }

  lemma {:induction false} RefuseCharges(d: Desk, k: nat, ok: bool, first: nat)
    requires ChargesOk(d, first) && Refuse(d, k, ok).Ok?
    ensures ChargesOk(Refuse(d, k, ok).value, first)
  {
    hide Inv;
    hide ChargedFor;
    hide Bytes;
    var d' := Refuse(d, k, ok).value;
    SumUpdate(d.requests, k, d'.requests[k], GrantedOf());
  }

  lemma {:induction false} ChargesStep(d: Desk, ev: Event, first: nat)
    requires ChargesOk(d, first)
    ensures ChargesOk(Step(d, ev), first)
  {
    hide ChargesOk;
    hide Grant;
    hide Refuse;
    hide Bytes;
    var d' := Step(d, ev);
    if d' != d {
      match ev
      case Approve(k, prices, ok) => GrantCharges(d, k, prices, ok, first);
      case Reject(k, ok) => RefuseCharges(d, k, ok, first);
      case _ => ChargesPush(d, d', d'.requests[|d.requests|], first);
    }
  }

  /** Over every run each approval makes exactly one charge, of its volume at its price, and at a positive amount
      one invoice of that amount; a rejection, a request and a gift of volume make none. */
  lemma {:induction false} ChargesOverRun(d: Desk, events: seq<Event>)
    requires Inv(d.books) && d.requests == []
    ensures ChargesOk(Run(d, events), |d.books.entries|)
  {
    hide Inv;
    hide Step;
    if events != [] {
      ChargesOverRun(d, events[..|events| - 1]);
      ChargesStep(Run(d, events[..|events| - 1]), events[|events| - 1], |d.books.entries|);
    }
  }

  /** The price an approval goes by: today's for an admin's own request, else that of the day it was made. */
  function PriceFor(r: Request, prices: Prices): Option<nat> {
    if r.kind.AdminRequest? then prices.today else prices.onDay
  }

  /** The approval that granted request k. */
  ghost predicate GrantedBy(d: Desk, ev: Event, k: nat, price: Option<nat>) {
    ev.Approve? && ev.request == k && k < |d.requests| && Grant(d, k, ev.prices, ev.panelOk).Ok?
    && price == PriceFor(d.requests[k], ev.prices)
  }

  /** And the price on record is the one in force at the approval that granted it. */
  lemma {:induction false} PricedAtApproval(d: Desk, events: seq<Event>, k: nat)
    requires d.requests == [] && k < |Run(d, events).requests| && Run(d, events).requests[k].status.Granted?
    ensures exists i :: 0 <= i < |events| && GrantedBy(Run(d, events[..i]), events[i], k, Run(d, events).requests[k].price)
  {
    hide Step;
    hide GrantedBy;
    var before, ev := events[..|events| - 1], events[|events| - 1];
    var m, r := Run(d, before), Run(d, events);
    StepPrices(m, ev, k);
    if k < |m.requests| && m.requests[k].status.Granted? {
      PricedAtApproval(d, before, k);
      var i :| 0 <= i < |before| && GrantedBy(Run(d, before[..i]), before[i], k, m.requests[k].price);
      assert events[..i] == before[..i] && events[i] == before[i];
    } else {
      assert GrantedBy(Run(d, events[..|before|]), events[|before|], k, r.requests[k].price);
    }
  }

  lemma {:induction false} StepPrices(d: Desk, ev: Event, k: nat)
    requires k < |Step(d, ev).requests| && Step(d, ev).requests[k].status.Granted?
    ensures if k < |d.requests| && d.requests[k].status.Granted? then Step(d, ev).requests[k] == d.requests[k]
            else GrantedBy(d, ev, k, Step(d, ev).requests[k].price)
  {
    hide ChargeVolume;
    hide ChargeAmount;
    hide Bytes;
  }

  // ---- the cap ----

  lemma {:induction false} GivenWithinPending(requests: seq<Request>, m: nat)
    ensures Sum(requests, GivenOf(m)) <= Sum(requests, PendingOf(m))
  {
    SumAtMost(requests, GivenOf(m), requests, PendingOf(m));
  }

  /** The volume a manager gave that still waits never exceeds the manager's cap. */
  ghost predicate CapOk(d: Desk, m: nat) {
    m in d.caps ==> Sum(d.requests, GivenOf(m)) <= d.caps[m]
  }

  /** A request that is decided no longer waits, and the sum of those waiting falls. */
  lemma {:induction false} CapDecide(d: Desk, k: nat, r: Request, m: nat)
    requires CapOk(d, m) && k < |d.requests| && GivenOf(m)(r) == 0
    ensures CapOk(d.(requests := d.requests[k := r]), m)
  {
    SumUpdate(d.requests, k, r, GivenOf(m));
  }

  /** A request is added only within the cap. */
  lemma {:induction false} CapAdd(d: Desk, r: Request, m: nat)
    requires CapOk(d, m)
    requires m in d.caps && GivenOf(m)(r) != 0 ==> Sum(d.requests, PendingOf(m)) + GivenOf(m)(r) <= d.caps[m]
    ensures CapOk(d.(requests := d.requests + [r]), m)
  {
    GivenWithinPending(d.requests, m);
    RequestPush(d.requests, r, GivenOf(m));
  }

  lemma {:induction false} CapStep(d: Desk, ev: Event, m: nat)
    requires CapOk(d, m)
    ensures CapOk(Step(d, ev), m) && Step(d, ev).caps == d.caps
  {
    hide CapOk;
    match ev
    case Approve(k, prices, ok) => CapGrant(d, k, prices, ok, m);
    case Reject(k, ok) => CapRefuse(d, k, ok, m);
    case Create(_, _, _, _) => CapGive(d, ev, m);
    case Add(_, _, _, _) => CapGive(d, ev, m);
    case Ask(_, _, _, _) => CapGive(d, ev, m);
  }

  lemma {:induction false} CapGrant(d: Desk, k: nat, prices: Prices, ok: bool, m: nat)
    requires CapOk(d, m)
    ensures Grant(d, k, prices, ok).Ok? ==>
              CapOk(Grant(d, k, prices, ok).value, m) && Grant(d, k, prices, ok).value.caps == d.caps
  {
    hide ChargeVolume;
    hide ChargeAmount;
    if Grant(d, k, prices, ok).Ok? {
      var g := Grant(d, k, prices, ok).value;
      CapDecide(d, k, g.requests[k], m);
      assert g.requests == d.requests[k := g.requests[k]];
    }
  }

  lemma {:induction false} CapRefuse(d: Desk, k: nat, ok: bool, m: nat)
    requires CapOk(d, m)
    ensures Refuse(d, k, ok).Ok? ==> CapOk(Refuse(d, k, ok).value, m) && Refuse(d, k, ok).value.caps == d.caps
  {
    if Refuse(d, k, ok).Ok? {
      var g := Refuse(d, k, ok).value;
      CapDecide(d, k, g.requests[k], m);
      assert g.requests == d.requests[k := g.requests[k]];
    }
  }

  lemma {:induction false} CapGive(d: Desk, ev: Event, m: nat)
    requires CapOk(d, m) && (ev.Create? || ev.Add? || ev.Ask?)
    ensures CapOk(Step(d, ev), m) && Step(d, ev).caps == d.caps
  {
    var d' := Step(d, ev);
    if d' != d {
      CapAdd(d, d'.requests[|d.requests|], m);
      assert d'.requests == d.requests + [d'.requests[|d.requests|]];
    }
  }

  lemma {:induction false} CapOverRun(d: Desk, events: seq<Event>, m: nat)
    requires d.requests == []
    ensures CapOk(Run(d, events), m) && Run(d, events).caps == d.caps
  {
    if events != [] {
      CapOverRun(d, events[..|events| - 1], m);
      CapStep(Run(d, events[..|events| - 1]), events[|events| - 1], m);
    }
  }

  // ---- the program's own form ----

  class ApprovalDesk {
    const caps: map<nat, nat>
    const agency: AgencyEngine.Agency
    var panel: map<Admin, int>
    var rows: map<Admin, Limits>
    var requests: seq<Request>

    constructor (caps: map<nat, nat>, agency: AgencyEngine.Agency, panel: map<Admin, int>, rows: map<Admin, Limits>)
      ensures this.agency == agency && State() == Desk(panel, rows, caps, [], agency.State())
    {
      this.caps, this.agency := caps, agency;
      this.panel, this.rows, requests := panel, rows, [];
    }

    function State(): Desk
      reads this, agency
    {
      Desk(panel, rows, caps, requests, agency.State())
    }

    method Create(m: nat, n: Admin, gb: int, panelOk: bool) returns (refused: Option<Refusal>)
      modifies this
      ensures Did(refused, CreateAdmin(old(State()), m, n, gb, panelOk), old(State()), State())
    {
      refused := CheckVolume(State(), m, gb);
      if refused.Some? {
        return;
      }
      if n in rows || n in panel || !panelOk {
        return Some(Conflict);
      }
      var bytes := Bytes(gb);
      panel := panel[n := bytes];
      rows := rows[n := Limits(bytes, bytes > 0, bytes)];
      requests := requests + [Request(NewAdmin, Some(m), n, gb, 0, bytes, Waiting, None, None)];
    }

    method Add(m: nat, n: Admin, gb: int, panelOk: bool) returns (refused: Option<Refusal>)
      modifies this
      ensures Did(refused, AddVolume(old(State()), m, n, gb, panelOk), old(State()), State())
    {
      refused := CheckVolume(State(), m, gb);
      if refused.Some? {
        return;
      }
      if n !in panel {
        return Some(NotFound);
      }
      var live := panel[n];
      if live <= 0 {
        return Some(Forbidden);
      }
      var bytes := live + Bytes(gb);
      if !panelOk {
        return Some(Busy);
      }
      panel := panel[n := bytes];
      if n in rows {
        rows := rows[n := Limits(bytes, true, bytes)];
      }
      requests := requests + [Request(AddedVolume, Some(m), n, gb, live, bytes, Waiting, None, None)];
    }

    method Ask(m: Option<nat>, n: Admin, gb: int, priced: bool) returns (refused: Option<Refusal>)
      modifies this
      ensures Did(refused, AskVolume(old(State()), m, n, gb, priced), old(State()), State())
    {
      if gb <= 0 || gb > MAX_GB {
        return Some(Invalid);
      }
      if n !in rows {
        return Some(NotFound);
      }
      if !priced {
        return Some(NoPrice);
      }
      if Sum(requests, AskedOf(n)) >= MAX_ASKED {
        return Some(Conflict);
      }
      var base := rows[n].Base();
      requests := requests + [Request(AdminRequest, m, n, gb, base, base + Bytes(gb), Waiting, None, None)];
      refused := None;
    }

    method Approve(k: nat, prices: Prices, panelOk: bool) returns (refused: Option<Refusal>)
      modifies this, agency
      ensures Did(refused, Grant(old(State()), k, prices, panelOk), old(State()), State())
    {
      hide ChargeVolume;
      hide ChargeAmount;
      hide Bytes;
      if k >= |requests| {
        return Some(NotFound);
      }
      var r := requests[k];
      if r.status != Waiting {
        return Some(Conflict);
      }
      if prices.onDay.None? {
        return Some(NoPrice);
      }
      var price := prices.onDay.value;
      if r.kind == AdminRequest {
        if r.admin !in rows {
          return Some(NotFound);
        }
        if prices.today.None? {
          return Some(NoPrice);
        }
        if r.admin !in panel {
          return Some(NotFound);
        }
        var live := panel[r.admin];
        var base := if live > 0 then live else rows[r.admin].Base();
        var bytes := base + Bytes(r.gb);
        if !panelOk {
          return Some(Busy);
        }
        panel := panel[r.admin := bytes];
        rows := rows[r.admin := Limits(bytes, true, bytes)];
        r := r.(oldBytes := base, newBytes := bytes);
        price := prices.today.value;
      }
      var e := |agency.entries|;
      agency.RecordQuotaCharge(r.admin, ChargeAmount(Max(0, r.newBytes - r.oldBytes), price), RequestInvoice);
      requests := requests[k := r.(status := Granted, charge := Some(e), price := Some(price))];
      refused := None;
    }

    method Reject(k: nat, panelOk: bool) returns (refused: Option<Refusal>)
      modifies this
      ensures Did(refused, Refuse(old(State()), k, panelOk), old(State()), State())
    {
      if k >= |requests| {
        return Some(NotFound);
      }
      var r := requests[k];
      if r.status != Waiting {
        return Some(Conflict);
      }
      if r.kind != AdminRequest {
        if r.admin !in panel {
          return Some(NotFound);
        }
        var live := panel[r.admin];
        if live <= 0 {
          return Some(Conflict);
        }
        var target := Max(1, live - Bytes(r.gb));
        if !panelOk {
          return Some(Busy);
        }
        panel := panel[r.admin := target];
        if r.admin in rows {
          rows := rows[r.admin := Limits(target, true, target)];
        }
      }
      requests := requests[k := r.(status := Refused)];
      refused := None;
    }
  }

  ghost predicate Did(refused: Option<Refusal>, want: Result<Desk, Refusal>, before: Desk, after: Desk) {
    match want
    case Err(r) => refused == Some(r) && after == before
    case Ok(d) => refused == None && after == d
  }
}
