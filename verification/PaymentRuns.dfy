// What whole runs do to one payment: how long it stays approved, and when it can be booked again.
module PaymentRuns {
  import opened Wrappers
  import opened Basics
  import opened Records
  import opened Sums
  import opened Books
  import opened Ledger
  import opened Payments
  import opened Approving
  import opened Runs
  import opened Moving

  predicate ApprovedAt(db: Db, k: nat) { k < |db.payments| && db.payments[k].status.Approved? }

  /** An approval that books the payment. */
  ghost predicate Pays(db: Db, ev: Event, k: nat) {
    ev.Approve? && ev.payment == k && Approvable(db, k) && ApprovePayment(db, k, ev.deposit).Ok?
  }

  /** An accepted hold of a payment that is approved. */
  ghost predicate Reopens(db: Db, ev: Event, k: nat) {
    ev.Ambiguous? && ev.payment == k && ApprovedAt(db, k) && HoldAmbiguous(db, k).Ok?
  }

  /** Nothing but the note of a late near miss has changed. */
  predicate SameApproval(p: Payment, q: Payment) {
    q == p.(mismatch := q.mismatch, late := q.late)
  }

  /** One event: a payment becomes approved exactly by being booked, stops being it exactly by being held, and
      stays the same otherwise. */
  lemma {:induction false} StepApproval(db: Db, ev: Event, k: nat)
    requires Inv(db)
    ensures var d := Step(db, ev);
            && |db.payments| <= |d.payments|
            && (ApprovedAt(d, k) <==> (ApprovedAt(db, k) && !Reopens(db, ev, k)) || Pays(db, ev, k))
            && (ApprovedAt(db, k) && !Reopens(db, ev, k) ==> SameApproval(db.payments[k], d.payments[k]))
  {
    hide ApprovePayment;
    hide Inv;
    hide FlagMismatch;
    hide HoldAmbiguous;
    hide SubmitReceipt;
    hide RejectPayment;
    match ev
    case Approve(j, deposit) => ApproveApproval(db, j, deposit, k);
    case NearMiss(j, amount) => FlagApproval(db, j, amount, k);
    case Ambiguous(j) => HoldApproval(db, j, k);
    case Receipt(j, allowed) => ReceiptApproval(db, j, allowed, k);
    case Reject(j, why) => RejectApproval(db, j, why, k);
    case _ =>
      StepMoves(db, ev);
      var d := Step(db, ev);
      assert k < |db.payments| ==> Moved(db.payments[k], d.payments[k]);
  }

  /** An operation that neither books nor holds payment k. */
  ghost predicate KeepsApproval(db: Db, d: Db, k: nat) {
    && |d.payments| == |db.payments|
    && (ApprovedAt(d, k) <==> ApprovedAt(db, k))
    && (ApprovedAt(db, k) ==> SameApproval(db.payments[k], d.payments[k]))
  }

  lemma {:induction false} FlagApproval(db: Db, j: nat, amount: int, k: nat)
    requires Inv(db)
    ensures FlagMismatch(db, j, amount).Ok? ==> KeepsApproval(db, FlagMismatch(db, j, amount).value, k)
  {
    hide BooksOk;
    hide AllCovered;
    hide MarkItems;
    assert j < |db.payments| ==> PaymentOk(db, db.payments[j]);
  }

  lemma {:induction false} ReceiptApproval(db: Db, j: nat, allowed: bool, k: nat)
    ensures SubmitReceipt(db, j, allowed).Ok? ==> KeepsApproval(db, SubmitReceipt(db, j, allowed).value, k)
  {
    hide MarkItems;
  }

  lemma {:induction false} RejectApproval(db: Db, j: nat, why: bool, k: nat)
    ensures RejectPayment(db, j, why).Ok? ==> KeepsApproval(db, RejectPayment(db, j, why).value, k)
  {
    hide MarkItems;
  }

  lemma {:induction false} HoldApproval(db: Db, j: nat, k: nat)
    ensures HoldAmbiguous(db, j).Ok? ==>
              && |HoldAmbiguous(db, j).value.payments| == |db.payments|
              && (ApprovedAt(HoldAmbiguous(db, j).value, k) <==> ApprovedAt(db, k) && j != k)
              && (j != k && k < |db.payments| ==> HoldAmbiguous(db, j).value.payments[k] == db.payments[k])
  {
    hide MarkItems;
  }

  lemma {:induction false} ApproveApproval(db: Db, j: nat, deposit: Option<int>, k: nat)
    ensures var ev, d := Approve(j, deposit), Step(db, Approve(j, deposit));
            && |db.payments| <= |d.payments|
            && (ApprovedAt(d, k) <==> ApprovedAt(db, k) || Pays(db, ev, k))
            && (ApprovedAt(db, k) ==> d.payments[k] == db.payments[k])
  {
    hide ItemsInRange;
    hide SettlePayment;
    hide EnforceUpTo;
    if Approvable(db, j) && ItemsInRange(db, db.payments[j].items) {
      ApproveMoves(db, j, deposit);
      var d := ApprovePayment(db, j, deposit).value;
      var a := db.payments[j := ApprovedPayment(db.payments[j], deposit)];
      assert k < |a| ==> Moved(a[k], d.payments[k]);
    }
  }

  ghost function Payouts(db: Db, events: seq<Event>, k: nat): nat {
    if events == [] then 0
    else
      var before := events[..|events| - 1];
      Payouts(db, before, k) + if Pays(Run(db, before), events[|events| - 1], k) then 1 else 0
  }

  ghost function Reopenings(db: Db, events: seq<Event>, k: nat): nat {
    if events == [] then 0
    else
      var before := events[..|events| - 1];
      Reopenings(db, before, k) + if Reopens(Run(db, before), events[|events| - 1], k) then 1 else 0
  }

  /** Over every run, a payment is booked exactly once more than it is held while approved, or as often if it is
      not approved now: so it is booked twice only if an approved payment was held. */
  lemma {:induction false} PayoutsExact(now: int, events: seq<Event>, k: nat)
    ensures Payouts(Empty(now), events, k)
         == Reopenings(Empty(now), events, k) + if ApprovedAt(Run(Empty(now), events), k) then 1 else 0
  {
    hide Step;
    hide Pays;
    hide Reopens;
    hide Inv;
    if events != [] {
      var before, ev := events[..|events| - 1], events[|events| - 1];
      PayoutsExact(now, before, k);
      EmptyOk(now);
      RunKeeps(Empty(now), before);
      StepApproval(Run(Empty(now), before), ev, k);
      PaysOnce(Run(Empty(now), before), ev, k);
    }
  }

  lemma {:induction false} PaysOnce(db: Db, ev: Event, k: nat)
    ensures Pays(db, ev, k) ==> !ApprovedAt(db, k) && !Reopens(db, ev, k)
    ensures Reopens(db, ev, k) ==> ApprovedAt(db, k)
  {
  }

  /** Held while approved, somewhere in the run. */
  ghost predicate EverReopened(db: Db, events: seq<Event>, k: nat) {
    exists i :: 0 <= i < |events| && Reopens(Run(db, events[..i]), events[i], k)
  }

  ghost predicate AlwaysApproved(db: Db, events: seq<Event>, k: nat) {
    forall i :: 0 <= i <= |events| ==> ApprovedAt(Run(db, events[..i]), k)
  }

  /** Both, one event later. */
  lemma {:induction false} EverPush(db: Db, events: seq<Event>, k: nat)
    requires events != []
    ensures var before := events[..|events| - 1];
            EverReopened(db, events, k)
            <==> EverReopened(db, before, k) || Reopens(Run(db, before), events[|events| - 1], k)
  {
    hide Step;
    hide Reopens;
    var before := events[..|events| - 1];
    forall i | 0 <= i <= |before| ensures events[..i] == before[..i] {}
    assert before[..|before|] == before;
    if EverReopened(db, before, k) {
      var i :| 0 <= i < |before| && Reopens(Run(db, before[..i]), before[i], k);
      assert Reopens(Run(db, events[..i]), events[i], k);
    }
    if EverReopened(db, events, k) {
      var i :| 0 <= i < |events| && Reopens(Run(db, events[..i]), events[i], k);
      assert i < |before| ==> Reopens(Run(db, before[..i]), before[i], k);
    }
    if Reopens(Run(db, before), events[|events| - 1], k) {
      assert Reopens(Run(db, events[..|before|]), events[|before|], k);
    }
  }

  lemma {:induction false} AlwaysPush(db: Db, events: seq<Event>, k: nat)
    requires events != []
    ensures AlwaysApproved(db, events, k) <==>
              AlwaysApproved(db, events[..|events| - 1], k) && ApprovedAt(Run(db, events), k)
  {
    hide Step;
    hide ApprovedAt;
    var before := events[..|events| - 1];
    forall i | 0 <= i <= |before| ensures events[..i] == before[..i] {}
    assert events[..|events|] == events;
    if AlwaysApproved(db, events, k) {
      assert ApprovedAt(Run(db, events[..|events|]), k);
      forall i | 0 <= i <= |before| ensures ApprovedAt(Run(db, before[..i]), k) {
        assert ApprovedAt(Run(db, events[..i]), k);
      }
    }
    if AlwaysApproved(db, before, k) && ApprovedAt(Run(db, events), k) {
      forall i | 0 <= i <= |events| ensures ApprovedAt(Run(db, events[..i]), k) {
        assert i <= |before| ==> ApprovedAt(Run(db, before[..i]), k);
      }
    }
  }

  /** An approved payment stays approved through a run, whatever deposits arrive, if and only if no hold of it is
      accepted while it is; and as long as it does, its row stays and approving it again changes nothing. */
  lemma {:induction false} ApprovedUntilHeld(db: Db, events: seq<Event>, k: nat)
    requires Inv(db) && ApprovedAt(db, k)
    ensures AlwaysApproved(db, events, k) <==> !EverReopened(db, events, k)
    ensures !EverReopened(db, events, k) ==>
              && ApprovedAt(Run(db, events), k)
              && SameApproval(db.payments[k], Run(db, events).payments[k])
              && forall deposit :: Step(Run(db, events), Approve(k, deposit)) == Run(db, events)
    decreases |events|
  {
    hide Step;
    hide Reopens;
    hide Inv;
    if events != [] {
      var before, ev := events[..|events| - 1], events[|events| - 1];
      ApprovedUntilHeld(db, before, k);
      RunKeeps(db, before);
      StepApproval(Run(db, before), ev, k);
      PaysOnce(Run(db, before), ev, k);
      EverPush(db, events, k);
      AlwaysPush(db, events, k);
    }
    if ApprovedAt(Run(db, events), k) {
      ApprovedIsDone(Run(db, events), k);
    }
  }

  lemma {:induction false} ApprovedIsDone(db: Db, k: nat)
    requires ApprovedAt(db, k)
    ensures forall deposit :: Step(db, Approve(k, deposit)) == db
  {
  }

  /** No other payment that can still be matched has the same unique amount. */
  predicate AmountFree(db: Db, k: nat)
    requires k < |db.payments|
  {
    forall j :: 0 <= j < |db.payments| && j != k ==> db.payments[j].lock != Some(db.payments[k].unique)
  }

  /** A hold that reaches a payment already approved is accepted exactly if its amount is free; and then the next
      approval, which would have changed nothing, books the whole amount once more. */
  lemma {:induction false} HoldBooksAgain(db: Db, k: nat, deposit: Option<int>)
    requires Inv(db) && ApprovedAt(db, k)
    ensures ApprovePayment(db, k, deposit) == Ok(db)
    ensures HoldAmbiguous(db, k).Ok? <==> AmountFree(db, k)
    ensures AmountFree(db, k) ==>
              var h := HoldAmbiguous(db, k).value;
              && Pays(h, Approve(k, deposit), k)
              && h.entries == db.entries
              && Sum(BookPayment(h, k, deposit).db.entries, EntryAmount()) - Sum(h.entries, EntryAmount())
                 == Max(0, Min(Arrived(db.payments[k], deposit), db.payments[k].amount))
  {
    hide BookPayment;
    hide Max;
    hide EnforceUpTo;
    hide Review;
    if AmountFree(db, k) {
      HoldAmbiguousKeeps(db, k);
      var h := HoldAmbiguous(db, k).value;
      assert PaymentOk(h, h.payments[k]);
      EntriesConserve(h, k, deposit);
    }
  }

  lemma {:induction false} PayoutsPush(db: Db, events: seq<Event>, ev: Event, k: nat)
    ensures Payouts(db, events + [ev], k) == Payouts(db, events, k) + if Pays(Run(db, events), ev, k) then 1 else 0
  {
    assert (events + [ev])[..|events|] == events;
  }

  /** So for a payment not held before, a hold and then an approval make it booked twice if and only if the hold finds
      it approved and its amount free. */
  lemma {:induction false} HoldPaysTwice(now: int, events: seq<Event>, k: nat, deposit: Option<int>)
    requires Reopenings(Empty(now), events, k) == 0
    ensures Payouts(Empty(now), events + [Ambiguous(k)] + [Approve(k, deposit)], k) == 2
            <==> ApprovedAt(Run(Empty(now), events), k) && AmountFree(Run(Empty(now), events), k)
  {
    hide Step;
    hide Inv;
    hide Pays;
    var held := events + [Ambiguous(k)];
    var db := Run(Empty(now), events);
    EmptyOk(now);
    RunKeeps(Empty(now), events);
    PayoutsExact(now, events, k);
    PayoutsPush(Empty(now), events, Ambiguous(k), k);
    PayoutsPush(Empty(now), held, Approve(k, deposit), k);
    RunPush(Empty(now), events, Ambiguous(k));
    HoldThenApprove(db, k, deposit);
  }

  lemma {:induction false} HoldThenApprove(db: Db, k: nat, deposit: Option<int>)
    requires Inv(db)
    ensures !Pays(db, Ambiguous(k), k)
    ensures ApprovedAt(db, k) ==> (Pays(Step(db, Ambiguous(k)), Approve(k, deposit), k) <==> AmountFree(db, k))
  {
    hide ApprovePayment;
    if ApprovedAt(db, k) {
      HoldBooksAgain(db, k, deposit);
    }
  }
}
