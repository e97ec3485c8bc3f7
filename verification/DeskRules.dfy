// What giving, asking, granting and refusing volume does, said outright: when it is accepted, why it is refused, and
// everything it changes.
module DeskRules {
  import opened Wrappers
  import opened Basics
  import opened Records
  import opened Sums
  import opened Books
  import opened Ledger
  import opened Pricing
  import opened Spending
  import opened EntryRules
  import opened Approvals

  /** Volume in hundredths of a GB is whole bytes, rounded down. */
  lemma {:induction false} BytesExactly(gb: nat)
    ensures 100 * Bytes(gb) <= gb * (1024 * 1024 * 1024) < 100 * Bytes(gb) + 100
  {
    assert gb * GIB == gb * (1024 * 1024 * 1024);
  }

  /** A manager's volume fits: positive, at most a million GB, and within what its cap leaves. */
  ghost predicate FitsCap(d: Desk, m: nat, gb: int) {
    0 < gb <= 1000000 * 100 && (m in d.caps ==> Sum(d.requests, PendingOf(m)) + gb <= d.caps[m])
  }

  lemma {:induction false} VolumeFits(d: Desk, m: nat, gb: int)
    ensures CheckVolume(d, m, gb).None? <==> FitsCap(d, m, gb)
    ensures CheckVolume(d, m, gb).Some? ==>
              CheckVolume(d, m, gb).value == if gb <= 0 then Forbidden else if gb > 1000000 * 100 then Invalid else Conflict
  {
  }

  // ---- what waits ----

  /** Over every run, the volume a manager has waiting is what it was plus what it put in and less what was decided. */
  lemma {:induction false} WaitingMoves(d: Desk, ev: Event, m: nat)
    ensures var before, after := Sum(d.requests, PendingOf(m)), Sum(Step(d, ev).requests, PendingOf(m));
            if Step(d, ev) == d then after == before
            else match ev
              case Create(x, _, gb, _) => after == before + if x == m then gb else 0
              case Add(x, _, gb, _) => after == before + if x == m then gb else 0
              case Ask(x, _, gb, _) => after == before + if x == Some(m) then gb else 0
              case Approve(k, _, _) =>
                k < |d.requests| && after == before - if d.requests[k].manager == Some(m) then d.requests[k].gb else 0
              case Reject(k, _) =>
                k < |d.requests| && after == before - if d.requests[k].manager == Some(m) then d.requests[k].gb else 0
  {
    hide ChargeVolume, ChargeAmount, Bytes, Sum;
    var d' := Step(d, ev);
    if d' != d {
      match ev
      case Approve(k, _, _) => DecidedSum(d.requests, k, d'.requests[k], m);
      case Reject(k, _) => DecidedSum(d.requests, k, d'.requests[k], m);
      case _ => RequestPush(d.requests, d'.requests[|d.requests|], PendingOf(m));
    }
  }

  lemma {:induction false} DecidedSum(requests: seq<Request>, k: nat, r: Request, m: nat)
    requires k < |requests| && requests[k].status.Waiting? && !r.status.Waiting?
    ensures Sum(requests[k := r], PendingOf(m))
         == Sum(requests, PendingOf(m)) - if requests[k].manager == Some(m) then requests[k].gb else 0
  {
    SumUpdate(requests, k, r, PendingOf(m));
  }

  /** And an admin's own questions that wait. */
  lemma {:induction false} AskedMoves(d: Desk, ev: Event, n: Admin)
    ensures var before, after := Sum(d.requests, AskedOf(n)), Sum(Step(d, ev).requests, AskedOf(n));
            if Step(d, ev) == d then after == before
            else match ev
              case Ask(_, x, _, _) => after == before + if x == n then 1 else 0
              case Approve(k, _, _) =>
                && k < |d.requests|
                && after == before - if d.requests[k].kind.AdminRequest? && d.requests[k].admin == n then 1 else 0
              case Reject(k, _) =>
                && k < |d.requests|
                && after == before - if d.requests[k].kind.AdminRequest? && d.requests[k].admin == n then 1 else 0
              case _ => after == before
  {
    hide ChargeVolume, ChargeAmount, Bytes, Sum;
    var d' := Step(d, ev);
    if d' != d {
      match ev
      case Approve(k, _, _) => SumUpdate(d.requests, k, d'.requests[k], AskedOf(n));
      case Reject(k, _) => SumUpdate(d.requests, k, d'.requests[k], AskedOf(n));
      case _ => RequestPush(d.requests, d'.requests[|d.requests|], AskedOf(n));
    }
  }

  /** Over every run, an admin never has more than five questions of its own waiting. */
  lemma {:induction false} FiveAsked(d: Desk, events: seq<Event>, n: Admin)
    requires d.requests == []
    ensures Sum(Run(d, events).requests, AskedOf(n)) <= 5
  {
    hide Step;
    if events != [] {
      var before, ev := events[..|events| - 1], events[|events| - 1];
      FiveAsked(d, before, n);
      AskedMoves(Run(d, before), ev, n);
      AskedBelowFive(Run(d, before), ev, n);
    }
  }

  lemma {:induction false} AskedBelowFive(d: Desk, ev: Event, n: Admin)
    ensures ev.Ask? && ev.admin == n && Step(d, ev) != d ==> Sum(d.requests, AskedOf(n)) < 5
  {
  }

  // ---- giving and asking ----

  /** A new admin gets its volume as its limit, and the manager's request waits. */
  lemma {:induction false} CreateExactly(d: Desk, m: nat, n: Admin, gb: int, panelOk: bool)
    ensures CreateAdmin(d, m, n, gb, panelOk).Ok? <==> FitsCap(d, m, gb) && n !in d.rows && n !in d.panel && panelOk
    ensures CreateAdmin(d, m, n, gb, panelOk).Err? ==>
              CreateAdmin(d, m, n, gb, panelOk).error == if gb <= 0 then Forbidden else if gb > 1000000 * 100 then Invalid else Conflict
    ensures CreateAdmin(d, m, n, gb, panelOk).Ok? ==>
              var e, limit := CreateAdmin(d, m, n, gb, panelOk).value, Bytes(gb);
              && e == d.(panel := e.panel, rows := e.rows, requests := e.requests)
              && e.panel == d.panel[n := limit] && limit > 0
              && e.rows == d.rows[n := Limits(limit, true, limit)]
              && e.requests == d.requests + [Request(NewAdmin, Some(m), n, gb, 0, limit, Waiting, None, None)]
  {
    VolumeFits(d, m, gb);
    if 0 < gb {
      BytesExactly(gb);
    }
  }

  /** A limit that is finite rises by the given volume, and the manager's request waits; an unlimited admin gets none. */
  lemma {:induction false} AddExactly(d: Desk, m: nat, n: Admin, gb: int, panelOk: bool)
    ensures AddVolume(d, m, n, gb, panelOk).Ok? <==> FitsCap(d, m, gb) && n in d.panel && d.panel[n] > 0 && panelOk
    ensures AddVolume(d, m, n, gb, panelOk).Err? && FitsCap(d, m, gb) ==>
              AddVolume(d, m, n, gb, panelOk).error == if n !in d.panel then NotFound else if d.panel[n] <= 0 then Forbidden else Busy
    ensures AddVolume(d, m, n, gb, panelOk).Ok? ==>
              var e, live, limit := AddVolume(d, m, n, gb, panelOk).value, d.panel[n], d.panel[n] + Bytes(gb);
              && e == d.(panel := e.panel, rows := e.rows, requests := e.requests)
              && e.panel == d.panel[n := limit]
              && e.rows == (if n in d.rows then d.rows[n := Limits(limit, true, limit)] else d.rows)
              && e.requests == d.requests + [Request(AddedVolume, Some(m), n, gb, live, limit, Waiting, None, None)]
  {
    hide Bytes;
    VolumeFits(d, m, gb);
  }

  /** The limit volume is added to: the finite one, or for an unlimited admin the last finite one. */
  function LastFinite(l: Limits): int {
    if l.limited && l.bytes >= 1 then l.bytes else l.last
  }

  /** A question is put on record with what the limit would become; nothing else changes. */
  lemma {:induction false} AskExactly(d: Desk, m: Option<nat>, n: Admin, gb: int, priced: bool)
    ensures AskVolume(d, m, n, gb, priced).Ok? <==>
              0 < gb <= 1000000 * 100 && n in d.rows && priced && Sum(d.requests, AskedOf(n)) < 5
    ensures AskVolume(d, m, n, gb, priced).Err? ==>
              AskVolume(d, m, n, gb, priced).error == if gb <= 0 || gb > 1000000 * 100 then Invalid
                                                      else if n !in d.rows then NotFound else if !priced then NoPrice else Conflict
    ensures AskVolume(d, m, n, gb, priced).Ok? ==>
              var base := LastFinite(d.rows[n]);
              AskVolume(d, m, n, gb, priced).value
              == d.(requests := d.requests + [Request(AdminRequest, m, n, gb, base, base + Bytes(gb), Waiting, None, None)])
  {
    hide Bytes;
  }

  // ---- granting and refusing ----

  /** Who may be granted: a request that waits and has a price, and for an admin's own one also an account, a price of today
      and the panel's answer. */
  lemma {:induction false} GrantWhen(d: Desk, k: nat, prices: Prices, panelOk: bool)
    ensures Grant(d, k, prices, panelOk).Ok? <==>
              && k < |d.requests| && d.requests[k].status.Waiting? && prices.onDay.Some?
              && (d.requests[k].kind.AdminRequest? ==>
                    prices.today.Some? && d.requests[k].admin in d.rows && d.requests[k].admin in d.panel && panelOk)
    ensures Grant(d, k, prices, panelOk).Err? ==>
              Grant(d, k, prices, panelOk).error ==
              if k >= |d.requests| then NotFound
              else if !d.requests[k].status.Waiting? then Conflict
              else if prices.onDay.None? then NoPrice
              else if d.requests[k].admin !in d.rows then NotFound
              else if prices.today.None? then NoPrice
              else if d.requests[k].admin !in d.panel then NotFound
              else Busy
  {
    hide ChargeVolume, ChargeAmount, Bytes;
  }

  /** Granting given volume leaves the limit as it is and charges for it at the price of its day. Granting an admin's own
      request raises the limit, or for an unlimited admin its last finite one, by the volume, and charges at today's price. */
  lemma {:induction false} GrantExactly(d: Desk, k: nat, prices: Prices, panelOk: bool)
    requires Grant(d, k, prices, panelOk).Ok?
    ensures var e, r := Grant(d, k, prices, panelOk).value, d.requests[k];
            && e.caps == d.caps
            && (if r.kind.AdminRequest? then
                  var base := if d.panel[r.admin] >= 1 then d.panel[r.admin] else LastFinite(d.rows[r.admin]);
                  && e.panel == d.panel[r.admin := base + Bytes(r.gb)]
                  && e.rows == d.rows[r.admin := Limits(base + Bytes(r.gb), true, base + Bytes(r.gb))]
                  && e.requests == d.requests[k := r.(status := Granted, charge := Some(|d.books.entries|), price := prices.today,
                                                      oldBytes := base, newBytes := base + Bytes(r.gb))]
                else
                  && e.panel == d.panel && e.rows == d.rows
                  && e.requests == d.requests[k := r.(status := Granted, charge := Some(|d.books.entries|), price := prices.onDay)])
  {
    hide ChargeVolume, ChargeAmount, Bytes;
  }

  /** What is charged is the volume's price, rounded half up, and it is what the admin owes more; the debt of no other
      admin moves, and a charge above zero has a request invoice of that amount. */
  lemma {:induction false} GrantCharges(d: Desk, k: nat, prices: Prices, panelOk: bool)
    requires Grant(d, k, prices, panelOk).Ok? && Inv(d.books)
    requires d.requests[k].newBytes == d.requests[k].oldBytes + Bytes(d.requests[k].gb)
    ensures var e, r := Grant(d, k, prices, panelOk).value, d.requests[k];
            var charged, exact := Balance(e.books, r.admin) - Balance(d.books, r.admin), Bytes(r.gb) * PriceFor(r, prices).value;
            && 2 * GIB * charged - GIB <= 2 * exact < 2 * GIB * charged + GIB
            && (forall m :: m != r.admin ==> Balance(e.books, m) == Balance(d.books, m))
            && (if charged > 0 then
                  && |e.books.invoices| == |d.books.invoices| + 1
                  && (var v := e.books.invoices[|d.books.invoices|];
                      v.admin == r.admin && v.kind.RequestInvoice? && v.amount == charged && v.entry == Some(|d.books.entries|))
                else |e.books.invoices| == |d.books.invoices|)
  {
    hide ChargeVolume, ChargeAmount, Bytes, Inv, Balance;
    var r, price := d.requests[k], PriceFor(d.requests[k], prices).value;
    var amount := ChargeAmount(Bytes(r.gb), price);
    assert Grant(d, k, prices, panelOk).value.books == ChargeVolume(d.books, r.admin, amount, RequestInvoice);
    QuotaMoves(d.books, r.admin, amount, RequestInvoice);
    AmountNear(Bytes(r.gb), price);
  }

  lemma {:induction false} AmountNear(bytes: nat, price: nat)
    ensures 2 * GIB * ChargeAmount(bytes, price) - GIB <= 2 * (bytes * price) < 2 * GIB * ChargeAmount(bytes, price) + GIB
  {
    RoundingError(bytes * price, GIB);
  }

  /** Refusing an admin's own request only records it. Refusing given volume takes it off the limit again, down to one byte,
      since zero would be no limit; an unlimited admin's cannot be taken back. */
  lemma {:induction false} RefuseExactly(d: Desk, k: nat, panelOk: bool)
    ensures Refuse(d, k, panelOk).Ok? <==>
              && k < |d.requests| && d.requests[k].status.Waiting?
              && (!d.requests[k].kind.AdminRequest? ==> d.requests[k].admin in d.panel && d.panel[d.requests[k].admin] > 0 && panelOk)
    ensures Refuse(d, k, panelOk).Err? ==>
              Refuse(d, k, panelOk).error ==
              if k >= |d.requests| then NotFound
              else if !d.requests[k].status.Waiting? then Conflict
              else if d.requests[k].admin !in d.panel then NotFound
              else if d.panel[d.requests[k].admin] <= 0 then Conflict
              else Busy
    ensures Refuse(d, k, panelOk).Ok? ==>
              var e, r := Refuse(d, k, panelOk).value, d.requests[k];
              && e.books == d.books && e.caps == d.caps
              && e.requests == d.requests[k := r.(status := Refused)]
              && (if r.kind.AdminRequest? then e.panel == d.panel && e.rows == d.rows
                  else
                    && r.admin in e.panel && e.panel == d.panel[r.admin := e.panel[r.admin]]
                    && (if d.panel[r.admin] > Bytes(r.gb) then e.panel[r.admin] + Bytes(r.gb) == d.panel[r.admin] else e.panel[r.admin] == 1)
                    && e.rows == (if r.admin in d.rows then d.rows[r.admin := Limits(e.panel[r.admin], true, e.panel[r.admin])] else d.rows))
  {
    hide Bytes;
  }
}
