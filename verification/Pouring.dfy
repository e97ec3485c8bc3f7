// The greedy rule that decides which money settles which invoice: the oldest invoice
// takes from the oldest source until one of them is used up, and so on; when no source
// is left, from the balance. Its meaning is a picture: lay the invoices end to end on
// a line, lay the sources end to end on the same line, cut the line at the amount to
// settle; an invoice takes from a source exactly the length of their common stretch.
module Pouring {
  import opened Wrappers
  import opened Basics
  import opened Records
  import opened Sums
  import opened Books
  import opened Settling

  const SOURCE_SKEW := 120

  datatype Target = Target(id: nat, rem: int)

  datatype Source = Source(entry: nat, kind: AllocKind, credit: int)

  function NewRow(id: nat, amount: int, kind: AllocKind, entry: Option<nat>, auto: bool): Alloc {
    Alloc(id, kind, amount, entry, None, auto, false)
  }

  function Pour(ts: seq<Target>, ss: seq<Source>, left: int, auto: bool): seq<Alloc>
    decreases |ts| + |ss|, Max(0, left)
  {
    if left <= 0 || ts == [] then []
    else if ts[0].rem <= 0 then Pour(ts[1..], ss, left, auto)
    else if ss == [] then
      var take := Min(left, ts[0].rem);
      [NewRow(ts[0].id, take, ByBalance, None, auto)] + Pour(ts[1..], ss, left - take, auto)
    else if ss[0].credit <= 0 then Pour(ts, ss[1..], left, auto)
    else
      var take := Min(left, Min(ts[0].rem, ss[0].credit));
      [NewRow(ts[0].id, take, ss[0].kind, Some(ss[0].entry), auto)]
      + Pour([ts[0].(rem := ts[0].rem - take)] + ts[1..], [ss[0].(credit := ss[0].credit - take)] + ss[1..], left - take, auto)
  }

  // ---- which invoices, which sources ----

  predicate IsTarget(v: Invoice, n: Admin) {
    v.admin == n && v.status.Unpaid?
  }

  function TargetsUpTo(invoices: seq<Invoice>, n: Admin, k: nat): (ts: seq<Target>)
    requires k <= |invoices|
    ensures forall j :: 0 <= j < |ts| ==>
              ts[j].id < k && IsTarget(invoices[ts[j].id], n) && ts[j].rem == invoices[ts[j].id].Remaining()
    ensures forall j, l :: 0 <= j < l < |ts| ==> ts[j].id < ts[l].id
  {
    if k == 0 then []
    else
      var before := TargetsUpTo(invoices, n, k - 1);
      if IsTarget(invoices[k - 1], n) then before + [Target(k - 1, invoices[k - 1].Remaining())] else before
  }

  /** The admin's unpaid invoices, oldest first. */
  function Targets(db: Db, n: Admin): seq<Target> {
    TargetsUpTo(db.invoices, n, |db.invoices|)
  }

  /** When the admin's first invoice, of any status, was issued. */
  function FirstIssued(invoices: seq<Invoice>, n: Admin): Option<int> {
    if invoices == [] then None
    else
      var i := |invoices| - 1;
      var before := FirstIssued(invoices[..i], n);
      if before.Some? then before else if invoices[i].admin == n then Some(invoices[i].created) else None
  }

  function KindOf(e: Entry): AllocKind {
    if e.kind.PaymentIn? then ByManual else ByAdjustment
  }

  predicate IsSource(db: Db, n: Admin, since: int, e: nat)
    requires e < |db.entries|
  {
    var x := db.entries[e];
    x.admin == n && !x.voided && x.created >= since && x.Reducing() && EntryCredit(db, e) > 0
  }

  function SourcesUpTo(db: Db, n: Admin, since: int, k: nat): (ss: seq<Source>)
    requires k <= |db.entries|
    ensures forall j :: 0 <= j < |ss| ==>
              && ss[j].entry < k && IsSource(db, n, since, ss[j].entry)
              && ss[j].kind == KindOf(db.entries[ss[j].entry]) && ss[j].credit == EntryCredit(db, ss[j].entry)
    ensures forall j, l :: 0 <= j < l < |ss| ==> ss[j].entry < ss[l].entry
  {
    if k == 0 then []
    else
      var before := SourcesUpTo(db, n, since, k - 1);
      if IsSource(db, n, since, k - 1) then
        before + [Source(k - 1, KindOf(db.entries[k - 1]), EntryCredit(db, k - 1))]
      else before
  }

  /** Live payments and decreases since the admin's first invoice that still have credit, oldest first. */
  function Sources(db: Db, n: Admin): seq<Source> {
    match FirstIssued(db.invoices, n)
    case None => []
    case Some(t) => SourcesUpTo(db, n, t - SOURCE_SKEW, |db.entries|)
  }

  // ---- pouring fits ----

  function RemOf(): Target -> int { (t: Target) => t.rem }

  function CreditOf(): Source -> int { (s: Source) => s.credit }

  ghost predicate TargetsOk(db: Db, n: Admin, ts: seq<Target>) {
    && (forall k :: 0 <= k < |ts| ==>
          && ts[k].id < |db.invoices|
          && db.invoices[ts[k].id].admin == n
          && ts[k].rem == db.invoices[ts[k].id].Remaining()
          && (ts[k].rem > 0 ==> db.invoices[ts[k].id].status.Unpaid?))
    && (forall k, l :: 0 <= k < l < |ts| ==> ts[k].id != ts[l].id)
  }

  ghost predicate SourcesOk(db: Db, n: Admin, ss: seq<Source>) {
    forall k :: 0 <= k < |ss| ==>
      && ss[k].entry < |db.entries|
      && db.entries[ss[k].entry].admin == n
      && !db.entries[ss[k].entry].voided
      && db.entries[ss[k].entry].Reducing()
  }

  lemma {:induction false} AfterRow(db: Db, n: Admin, ts: seq<Target>, a: Alloc)
    requires BooksOk(db) && TargetsOk(db, n, ts) && ts != [] && ts[0].rem > 0
    requires FitsRow(db, a, n) && a.invoice == ts[0].id
    ensures BooksOk(AddRow(db, a))
    ensures TargetsOk(AddRow(db, a), n, [ts[0].(rem := ts[0].rem - a.amount)] + ts[1..])
    ensures TargetsOk(AddRow(db, a), n, ts[1..])
  {
    AddRowEffect(db, a, n);
    var ts' := [ts[0].(rem := ts[0].rem - a.amount)] + ts[1..];
    var d := AddRow(db, a);
    forall k | 0 <= k < |ts'|
      ensures ts'[k].id < |d.invoices| && d.invoices[ts'[k].id].admin == n
      ensures ts'[k].rem == d.invoices[ts'[k].id].Remaining()
      ensures ts'[k].rem > 0 ==> d.invoices[ts'[k].id].status.Unpaid?
    {
      if k > 0 {
        assert ts'[k] == ts[k];
        assert ts[0].id != ts[k].id;
      }
    }
    assert ts' != [] && ts'[1..] == ts[1..];
  }

  lemma {:induction false} TailsOk(db: Db, n: Admin, ts: seq<Target>, ss: seq<Source>)
    requires TargetsOk(db, n, ts) && SourcesOk(db, n, ss)
    ensures ts != [] ==> TargetsOk(db, n, ts[1..])
    ensures ss != [] ==> SourcesOk(db, n, ss[1..])
  {
  }

  /** One turn of the greedy loop. */
  lemma {:induction false} PourTurn(ts: seq<Target>, ss: seq<Source>, left: int, auto: bool)
    ensures left <= 0 || ts == [] ==> Pour(ts, ss, left, auto) == []
    ensures left > 0 && ts != [] && ts[0].rem <= 0 ==> Pour(ts, ss, left, auto) == Pour(ts[1..], ss, left, auto)
    ensures left > 0 && ts != [] && ts[0].rem > 0 && ss == [] ==>
              var take := Min(left, ts[0].rem);
              Pour(ts, ss, left, auto) == [NewRow(ts[0].id, take, ByBalance, None, auto)] + Pour(ts[1..], ss, left - take, auto)
    ensures left > 0 && ts != [] && ts[0].rem > 0 && ss != [] && ss[0].credit <= 0 ==>
              Pour(ts, ss, left, auto) == Pour(ts, ss[1..], left, auto)
    ensures left > 0 && ts != [] && ts[0].rem > 0 && ss != [] && ss[0].credit > 0 ==>
              var take := Min(left, Min(ts[0].rem, ss[0].credit));
              var ts' := [ts[0].(rem := ts[0].rem - take)] + ts[1..];
              var ss' := [ss[0].(credit := ss[0].credit - take)] + ss[1..];
              Pour(ts, ss, left, auto)
              == [NewRow(ts[0].id, take, ss[0].kind, Some(ss[0].entry), auto)] + Pour(ts', ss', left - take, auto)
  {
  }

  lemma {:induction false} PourFits(db: Db, n: Admin, ts: seq<Target>, ss: seq<Source>, left: int, auto: bool)
    requires BooksOk(db) && TargetsOk(db, n, ts) && SourcesOk(db, n, ss)
    ensures InRange(db, Pour(ts, ss, left, auto))
    ensures Fits(db, Pour(ts, ss, left, auto), n)
    decreases |ts| + |ss|, Max(0, left)
  {
    hide BooksOk;
    hide TargetsOk;
    hide Pour;
    PourTurn(ts, ss, left, auto);
    TailsOk(db, n, ts, ss);
    if left <= 0 || ts == [] {
      assert Pour(ts, ss, left, auto) == [];
    } else if ts[0].rem <= 0 {
      PourFits(db, n, ts[1..], ss, left, auto);
    } else if ss == [] {
      var take := Min(left, ts[0].rem);
      var a := NewRow(ts[0].id, take, ByBalance, None, auto);
      RowFits(db, n, ts, a);
      PourFits(AddRow(db, a), n, ts[1..], ss, left - take, auto);
      FitsCons(db, a, Pour(ts[1..], ss, left - take, auto), n);
    } else if ss[0].credit <= 0 {
      PourFits(db, n, ts, ss[1..], left, auto);
    } else {
      var take := Min(left, Min(ts[0].rem, ss[0].credit));
      var a := NewRow(ts[0].id, take, ss[0].kind, Some(ss[0].entry), auto);
      var ts' := [ts[0].(rem := ts[0].rem - take)] + ts[1..];
      var ss' := [ss[0].(credit := ss[0].credit - take)] + ss[1..];
      SourcesShrink(db, n, ss, take, db);
      RowFits(db, n, ts, a);
      SourcesShrink(db, n, ss, take, AddRow(db, a));
      PourFits(AddRow(db, a), n, ts', ss', left - take, auto);
      FitsCons(db, a, Pour(ts', ss', left - take, auto), n);
    }
  }

  /** A row for the first target, within what is left of it, fits; so do the targets after it. */
  lemma {:induction false} RowFits(db: Db, n: Admin, ts: seq<Target>, a: Alloc)
    requires BooksOk(db) && TargetsOk(db, n, ts) && ts != []
    requires a.invoice == ts[0].id && 0 < a.amount <= ts[0].rem && !a.released
    requires a.entry.Some? ==> SourcesOk(db, n, [Source(a.entry.value, a.kind, 0)])
    ensures FitsRow(db, a, n) && db.invoices[a.invoice].status.Unpaid?
    ensures BooksOk(AddRow(db, a))
    ensures TargetsOk(AddRow(db, a), n, [ts[0].(rem := ts[0].rem - a.amount)] + ts[1..])
    ensures TargetsOk(AddRow(db, a), n, ts[1..])
  {
    assert a.entry.Some? ==> [Source(a.entry.value, a.kind, 0)][0].entry == a.entry.value;
    AfterRow(db, n, ts, a);
  }

  lemma {:induction false} SourcesShrink(db: Db, n: Admin, ss: seq<Source>, take: int, d: Db)
    requires SourcesOk(db, n, ss) && ss != [] && d.entries == db.entries
    ensures SourcesOk(d, n, [ss[0].(credit := ss[0].credit - take)] + ss[1..])
    ensures SourcesOk(db, n, [Source(ss[0].entry, ss[0].kind, 0)])
  {
    var ss' := [ss[0].(credit := ss[0].credit - take)] + ss[1..];
    forall k | 0 <= k < |ss'| ensures ss'[k].entry == ss[k].entry {}
  }

  lemma {:induction false} FitsCons(db: Db, a: Alloc, rest: seq<Alloc>, n: Admin)
    requires FitsRow(db, a, n) && db.invoices[a.invoice].status.Unpaid?
    requires Fits(AddRow(db, a), rest, n) && InRange(AddRow(db, a), rest)
    ensures Fits(db, [a] + rest, n) && InRange(db, [a] + rest)
  {
    assert ([a] + rest)[1..] == rest;
  }

  /** Pouring settles as much as is asked for and the invoices can take. */
  lemma {:induction false} PourTotal(ts: seq<Target>, ss: seq<Source>, left: int, auto: bool)
    requires forall k :: 0 <= k < |ts| ==> ts[k].rem >= 0
    ensures Total(Pour(ts, ss, left, auto)) == Min(Max(0, left), Sum(ts, RemOf()))
    decreases |ts| + |ss|, Max(0, left)
  {
    hide RowAmount, Sum, Pour;
    PourTurn(ts, ss, left, auto);
    NoRows();
    SumMember(ts, RemOf());
    if left > 0 && ts != [] {
      SumFront(ts, RemOf());
      SumMember(ts[1..], RemOf());
      if ts[0].rem <= 0 {
        PourTotal(ts[1..], ss, left, auto);
      } else if ss == [] {
        var take := Min(left, ts[0].rem);
        PourTotal(ts[1..], ss, left - take, auto);
        TotalRow(NewRow(ts[0].id, take, ByBalance, None, auto), Pour(ts[1..], ss, left - take, auto));
      } else if ss[0].credit <= 0 {
        PourTotal(ts, ss[1..], left, auto);
      } else {
        var take := Min(left, Min(ts[0].rem, ss[0].credit));
        var ts' := [ts[0].(rem := ts[0].rem - take)] + ts[1..];
        var ss' := [ss[0].(credit := ss[0].credit - take)] + ss[1..];
        PourTotal(ts', ss', left - take, auto);
        SumFront(ts', RemOf());
        assert ts'[1..] == ts[1..];
        TotalRow(NewRow(ts[0].id, take, ss[0].kind, Some(ss[0].entry), auto), Pour(ts', ss', left - take, auto));
      }
    }
  }

  lemma {:induction false} NoRows()
    ensures Total([]) == 0 && Sum([], RemOf()) == 0
  {
  }

  lemma {:induction false} TotalRow(a: Alloc, rest: seq<Alloc>)
    ensures Total([a] + rest) == a.amount + Total(rest)
  {
    SumFront([a] + rest, RowAmount());
  }

  /** Every unpaid invoice is a target. */
  lemma {:induction false} TargetsComplete(invoices: seq<Invoice>, n: Admin, k: nat, i: nat)
    requires i < k <= |invoices| && IsTarget(invoices[i], n)
    ensures exists j :: 0 <= j < |TargetsUpTo(invoices, n, k)| && TargetsUpTo(invoices, n, k)[j].id == i
  {
    var ts := TargetsUpTo(invoices, n, k);
    if i == k - 1 {
      assert ts[|ts| - 1].id == i;
    } else {
      TargetsComplete(invoices, n, k - 1, i);
      var before := TargetsUpTo(invoices, n, k - 1);
      var j :| 0 <= j < |before| && before[j].id == i;
      assert ts[j].id == i;
    }
  }

  /** Every entry that still has credit to spend is a source. */
  lemma {:induction false} SourcesComplete(db: Db, n: Admin, since: int, k: nat, e: nat)
    requires e < k <= |db.entries| && IsSource(db, n, since, e)
    ensures exists j :: 0 <= j < |SourcesUpTo(db, n, since, k)| && SourcesUpTo(db, n, since, k)[j].entry == e
  {
    var ss := SourcesUpTo(db, n, since, k);
    if e == k - 1 {
      assert ss[|ss| - 1].entry == e;
    } else {
      SourcesComplete(db, n, since, k - 1, e);
      var before := SourcesUpTo(db, n, since, k - 1);
      var j :| 0 <= j < |before| && before[j].entry == e;
      assert ss[j].entry == e;
    }
  }

  lemma {:induction false} TargetsFit(db: Db, n: Admin)
    ensures TargetsOk(db, n, Targets(db, n))
    ensures Sum(Targets(db, n), RemOf()) == UnpaidTotal(db, n)
  {
    TargetSum(db.invoices, n, |db.invoices|);
    assert db.invoices[..|db.invoices|] == db.invoices;
  }

  lemma {:induction false} TargetSum(invoices: seq<Invoice>, n: Admin, k: nat)
    requires k <= |invoices|
    ensures Sum(TargetsUpTo(invoices, n, k), RemOf()) == Sum(invoices[..k], UnpaidOf(n))
  {
    if k > 0 {
      TargetSum(invoices, n, k - 1);
      var v := invoices[k - 1];
      TargetPush(invoices, n, k);
      assert invoices[..k] == invoices[..k - 1] + [v];
      SumPush(invoices[..k - 1], v, UnpaidOf(n));
    }
  }

  lemma {:induction false} TargetPush(invoices: seq<Invoice>, n: Admin, k: nat)
    requires 0 < k <= |invoices|
    ensures Sum(TargetsUpTo(invoices, n, k), RemOf())
         == Sum(TargetsUpTo(invoices, n, k - 1), RemOf()) + UnpaidOf(n)(invoices[k - 1])
  {
    SumPush(TargetsUpTo(invoices, n, k - 1), Target(k - 1, invoices[k - 1].Remaining()), RemOf());
  }

  lemma {:induction false} SourcesFit(db: Db, n: Admin)
    ensures SourcesOk(db, n, Sources(db, n))
  {
    match FirstIssued(db.invoices, n)
    case None =>
    case Some(t) =>
      assert forall e :: 0 <= e < |db.entries| && IsSource(db, n, t - SOURCE_SKEW, e) ==> db.entries[e].Reducing();
  }
}
