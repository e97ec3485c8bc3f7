// What of an entry is in use: which entries enforce draws on, in which order and how far, and what whole runs do.
module Spending {
  import opened Wrappers
  import opened Basics
  import opened Records
  import opened Sums
  import opened Books
  import opened Settling
  import opened Pouring
  import opened Stretches
  import opened Enforcement
  import opened Voiding
  import opened Ledger
  import opened Billing
  import opened Payments
  import opened Approving
  import opened PayAll
  import opened Runs

  // ---- the rows of a plan ----

  /** A row drawn on one of the sources, or else on the balance. */
  ghost predicate Drawn(a: Alloc, ss: seq<Source>, auto: bool) {
    && !a.released && a.payment.None? && a.auto == auto && a.amount > 0
    && (a.entry.None? ==> a.kind.ByBalance?)
    && (a.entry.Some? ==> exists s :: 0 <= s < |ss| && ss[s].entry == a.entry.value && ss[s].kind == a.kind)
  }

  ghost predicate AllDrawn(rows: seq<Alloc>, ss: seq<Source>, auto: bool) {
    forall j :: 0 <= j < |rows| ==> Drawn(rows[j], ss, auto)
  }

  lemma {:induction false} DrawnCons(a: Alloc, rest: seq<Alloc>, ss': seq<Source>, ss: seq<Source>, auto: bool)
    requires Drawn(a, ss, auto) && AllDrawn(rest, ss', auto)
    requires forall s' :: 0 <= s' < |ss'| ==> exists s :: 0 <= s < |ss| && ss[s].entry == ss'[s'].entry && ss[s].kind == ss'[s'].kind
    ensures AllDrawn([a] + rest, ss, auto)
  {
    var rows := [a] + rest;
    forall j | 0 <= j < |rows| ensures Drawn(rows[j], ss, auto) {
      if j > 0 {
        assert rows[j] == rest[j - 1] && Drawn(rest[j - 1], ss', auto);
      }
    }
  }

  lemma {:induction false} DrawnAmong(rows: seq<Alloc>, ss': seq<Source>, ss: seq<Source>, auto: bool)
    requires AllDrawn(rows, ss', auto) && forall s' :: 0 <= s' < |ss'| ==> ss'[s'] in ss
    ensures AllDrawn(rows, ss, auto)
  {
    forall j | 0 <= j < |rows| ensures Drawn(rows[j], ss, auto) {
      assert Drawn(rows[j], ss', auto);
    }
  }

  lemma {:induction false} PourDrawn(ts: seq<Target>, ss: seq<Source>, left: int, auto: bool)
    ensures AllDrawn(Pour(ts, ss, left, auto), ss, auto)
    decreases |ts| + |ss|, Max(0, left)
  {
    hide Pour, AllDrawn;
    PourTurn(ts, ss, left, auto);
    if left <= 0 || ts == [] {
      NoneDrawn(ss, auto);
    } else if ts[0].rem <= 0 {
      PourDrawn(ts[1..], ss, left, auto);
    } else if ss == [] {
      var take := Min(left, ts[0].rem);
      PourDrawn(ts[1..], ss, left - take, auto);
      DrawnCons(NewRow(ts[0].id, take, ByBalance, None, auto), Pour(ts[1..], ss, left - take, auto), ss, ss, auto);
    } else if ss[0].credit <= 0 {
      PourDrawn(ts, ss[1..], left, auto);
      DrawnAmong(Pour(ts, ss[1..], left, auto), ss[1..], ss, auto);
    } else {
      var take := Min(left, Min(ts[0].rem, ss[0].credit));
      var ts' := [ts[0].(rem := ts[0].rem - take)] + ts[1..];
      var ss' := [ss[0].(credit := ss[0].credit - take)] + ss[1..];
      PourDrawn(ts', ss', left - take, auto);
      forall s' | 0 <= s' < |ss'| ensures ss[s'].entry == ss'[s'].entry && ss[s'].kind == ss'[s'].kind {}
      DrawnCons(NewRow(ts[0].id, take, ss[0].kind, Some(ss[0].entry), auto), Pour(ts', ss', left - take, auto), ss', ss, auto);
    }
  }

  lemma {:induction false} NoneDrawn(ss: seq<Source>, auto: bool)
    ensures AllDrawn([], ss, auto)
  {
  }

  /** Fresh rows are in use: what they take from an entry adds to what it has in use. */
  lemma {:induction false} UsedGrows(allocs: seq<Alloc>, rows: seq<Alloc>, ss: seq<Source>, auto: bool, e: nat)
    requires AllDrawn(rows, ss, auto)
    ensures Used(allocs + rows, e) == Used(allocs, e) + Sum(rows, FromSource(Some(e)))
    ensures (forall s :: 0 <= s < |ss| ==> ss[s].entry != e) ==> Sum(rows, FromSource(Some(e))) == 0
    ensures Sum(rows, FromSource(Some(e))) >= 0
  {
    SumConcat(allocs, rows, OnEntry(e));
    forall j | 0 <= j < |rows| ensures OnEntry(e)(rows[j]) == FromSource(Some(e))(rows[j]) >= 0 { assert Drawn(rows[j], ss, auto); }
    SumEqual(rows, OnEntry(e), rows, FromSource(Some(e)));
    SumMember(rows, FromSource(Some(e)));
    if forall s :: 0 <= s < |ss| ==> ss[s].entry != e {
      forall j | 0 <= j < |rows| ensures FromSource(Some(e))(rows[j]) == 0 { assert Drawn(rows[j], ss, auto); }
      SumZero(rows, FromSource(Some(e)));
    }
  }

  // ---- which entries enforce may draw on ----

  /** Invoice i is the admin's first, of any status. */
  predicate FirstOf(invoices: seq<Invoice>, n: Admin, i: nat) {
    i < |invoices| && invoices[i].admin == n && forall d :: 0 <= d < i ==> invoices[d].admin != n
  }

  lemma {:induction false} FirstIssuedIs(invoices: seq<Invoice>, n: Admin, i: nat)
    requires FirstOf(invoices, n, i)
    ensures FirstIssued(invoices, n) == Some(invoices[i].created)
    decreases |invoices|
  {
    var k := |invoices| - 1;
    if i < k {
      FirstIssuedIs(invoices[..k], n, i);
    } else {
      NoneIssued(invoices[..k], n);
    }
  }

  lemma {:induction false} NoneIssued(invoices: seq<Invoice>, n: Admin)
    ensures FirstIssued(invoices, n) == None <==> forall i :: 0 <= i < |invoices| ==> invoices[i].admin != n
    decreases |invoices|
  {
    if invoices != [] {
      NoneIssued(invoices[..|invoices| - 1], n);
    }
  }

  lemma {:induction false} SomeFirst(invoices: seq<Invoice>, n: Admin, k: nat) returns (i: nat)
    requires k < |invoices| && invoices[k].admin == n
    ensures FirstOf(invoices, n, i)
  {
    if d :| 0 <= d < k && invoices[d].admin == n {
      i := SomeFirst(invoices, n, d);
    } else {
      i := k;
    }
  }

  /** A live payment or decrease of the admin, made at most two minutes before its first invoice or after it. */
  ghost predicate Eligible(db: Db, n: Admin, e: nat) {
    && e < |db.entries| && db.entries[e].admin == n && !db.entries[e].voided
    && (db.entries[e].kind.PaymentIn? || (db.entries[e].kind.Adjustment? && db.entries[e].amount < 0))
    && exists i: nat :: FirstOf(db.invoices, n, i) && db.invoices[i].created - 2 * 60 <= db.entries[e].created
  }

  /** The part of an entry's amount that no active allocation uses is what it can still give. */
  ghost predicate HasRest(db: Db, e: nat)
    requires e < |db.entries|
  {
    Used(db.allocs, e) < (if db.entries[e].amount < 0 then -db.entries[e].amount else db.entries[e].amount)
  }

  lemma {:induction false} EligibleIs(db: Db, n: Admin, i: nat, e: nat)
    requires FirstOf(db.invoices, n, i) && e < |db.entries|
    ensures IsSource(db, n, db.invoices[i].created - SOURCE_SKEW, e) <==> Eligible(db, n, e) && HasRest(db, e)
  {
    forall j: nat | FirstOf(db.invoices, n, j) ensures j == i {}
  }

  /** The entries a plan draws on are exactly the eligible ones with something left, oldest first, each with all it has
      left, as a manual payment or as an adjustment. */
  lemma {:induction false} SourcesExactly(db: Db, n: Admin, e: nat)
    ensures (exists s :: 0 <= s < |Sources(db, n)| && Sources(db, n)[s].entry == e)
            <==> Eligible(db, n, e) && HasRest(db, e)
    ensures forall s :: 0 <= s < |Sources(db, n)| && Sources(db, n)[s].entry == e ==>
              var x := db.entries[e];
              && Sources(db, n)[s].credit == (if x.amount < 0 then -x.amount else x.amount) - Used(db.allocs, e)
              && Sources(db, n)[s].kind == (if x.kind.PaymentIn? then ByManual else ByAdjustment)
    ensures forall s, t :: 0 <= s < t < |Sources(db, n)| ==> Sources(db, n)[s].entry < Sources(db, n)[t].entry
  {
    if k :| 0 <= k < |db.invoices| && db.invoices[k].admin == n {
      var i := SomeFirst(db.invoices, n, k);
      FirstIssuedIs(db.invoices, n, i);
      var since := db.invoices[i].created - SOURCE_SKEW;
      assert Sources(db, n) == SourcesUpTo(db, n, since, |db.entries|);
      if e < |db.entries| {
        EligibleIs(db, n, i, e);
        if IsSource(db, n, since, e) {
          SourcesComplete(db, n, since, |db.entries|, e);
        }
      }
    } else {
      NoneIssued(db.invoices, n);
    }
  }

  // ---- how far ----

  lemma {:induction false} EnforceRows(db: Db, n: Admin)
    ensures Enforce(db, n).allocs == db.allocs + PlanRows(db, n)
    ensures Enforce(db, n).entries == db.entries
    ensures AllDrawn(PlanRows(db, n), Sources(db, n), true)
  {
    PourInRange(db, Targets(db, n), Sources(db, n), Excess(db, n), true);
    AddAllStays(db, PlanRows(db, n));
    PourDrawn(Targets(db, n), Sources(db, n), Excess(db, n), true);
  }

  lemma {:induction false} SameLedger(db: Db, d: Db, m: Admin)
    requires d.entries == db.entries
    ensures Balance(d, m) == Balance(db, m)
  {
  }

  /** Enforce uses no entry beyond its size. */
  lemma {:induction false} EnforceUses(db: Db, n: Admin, e: nat)
    ensures Used(Enforce(db, n).allocs, e) >= Used(db.allocs, e)
    ensures e < |db.entries| ==> Used(Enforce(db, n).allocs, e) <= Max(Used(db.allocs, e), db.entries[e].Size())
    ensures !Eligible(db, n, e) ==> Used(Enforce(db, n).allocs, e) == Used(db.allocs, e)
  {
    hide Eligible, HasRest, AllDrawn, Enforce, PlanRows, Sources;
    EnforceRows(db, n);
    UsedGrows(db.allocs, PlanRows(db, n), Sources(db, n), true, e);
    SourcesExactly(db, n, e);
    if s :| 0 <= s < |Sources(db, n)| && Sources(db, n)[s].entry == e {
      NoOverspending(db, n, s);
      SourceCredit(db, n, e, s);
    }
  }

  lemma {:induction false} SourceCredit(db: Db, n: Admin, e: nat, s: nat)
    requires s < |Sources(db, n)| && Sources(db, n)[s].entry == e
    ensures e < |db.entries| && EntryCredit(db, e) == db.entries[e].Size() - Used(db.allocs, e) > 0
  {
    SourcesExactly(db, n, e);
  }

  /** A row drawn on the balance is written only when afterwards every eligible entry is used up. */
  lemma {:induction false} BalanceIsLast(db: Db, n: Admin, j: nat, e: nat)
    requires |db.allocs| <= j < |Enforce(db, n).allocs| && Enforce(db, n).allocs[j].kind.ByBalance?
    requires Eligible(db, n, e)
    ensures Used(Enforce(db, n).allocs, e) >= db.entries[e].Size()
  {
    EnforceRows(db, n);
    BalanceRow(db, n, j - |db.allocs|);
    UsedGrows(db.allocs, PlanRows(db, n), Sources(db, n), true, e);
    SourcesExactly(db, n, e);
    if HasRest(db, e) {
      var s :| 0 <= s < |Sources(db, n)| && Sources(db, n)[s].entry == e;
      BalanceLast(db, n, s);
      SourceCredit(db, n, e, s);
    }
  }

  lemma {:induction false} BalanceRow(db: Db, n: Admin, j: nat)
    requires j < |PlanRows(db, n)| && PlanRows(db, n)[j].kind.ByBalance?
    ensures Sum(PlanRows(db, n), FromSource(None)) > 0
  {
    var rows := PlanRows(db, n);
    EnforceRows(db, n);
    SourcesExactly(db, n, |db.entries|);
    forall l | 0 <= l < |rows| ensures FromSource(None)(rows[l]) >= 0 { assert Drawn(rows[l], Sources(db, n), true); }
    SumMember(rows, FromSource(None));
    assert Drawn(rows[j], Sources(db, n), true);
    assert FromSource(None)(rows[j]) == rows[j].amount;
  }

  /** And from a newer entry only when the older eligible ones are. */
  lemma {:induction false} OldestEntryFirst(db: Db, n: Admin, elder: nat, newer: nat)
    requires Eligible(db, n, elder) && elder < newer && Used(Enforce(db, n).allocs, newer) > Used(db.allocs, newer)
    ensures Used(Enforce(db, n).allocs, elder) >= db.entries[elder].Size()
  {
    EnforceRows(db, n);
    UsedGrows(db.allocs, PlanRows(db, n), Sources(db, n), true, elder);
    UsedGrows(db.allocs, PlanRows(db, n), Sources(db, n), true, newer);
    SourcesExactly(db, n, elder);
    SourcesExactly(db, n, newer);
    if HasRest(db, elder) {
      var ss := Sources(db, n);
      var s :| 0 <= s < |ss| && ss[s].entry == elder;
      var t :| 0 <= t < |ss| && ss[t].entry == newer;
      SourceCredit(db, n, elder, s);
      EarlierSource(db, n, s, t);
    }
  }

  lemma {:induction false} EarlierSource(db: Db, n: Admin, s: nat, t: nat)
    requires t < |Sources(db, n)| && s < |Sources(db, n)| && Sources(db, n)[s].entry < Sources(db, n)[t].entry
    requires Sum(PlanRows(db, n), FromSource(Some(Sources(db, n)[t].entry))) > 0
    ensures Sum(PlanRows(db, n), FromSource(Some(Sources(db, n)[s].entry))) == EntryCredit(db, Sources(db, n)[s].entry)
  {
    PlanPieces(db, n);
    SourcesExactly(db, n, 0);
    var ts, ss, cut := Targets(db, n), Sources(db, n), Excess(db, n);
    assert s < t;
    if cut > 0 {
      PourSource(ts, ss, cut, true, s);
      PourSource(ts, ss, cut, true, t);
      SourceStep(ss, s, t);
    }
  }
}
