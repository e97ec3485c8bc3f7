// What whole runs do to the marks of review: when an invoice is kept under review for nothing.
module ReviewRuns {
  import opened Wrappers
  import opened Records
  import opened Books
  import opened Payments
  import opened Approving
  import opened Runs
  import opened Moving

  /** An accepted near miss of a payment decided meanwhile. */
  ghost predicate ComesLate(db: Db, ev: Event) {
    ev.NearMiss? && ev.payment < |db.payments| && !db.payments[ev.payment].Matchable()
    && FlagMismatch(db, ev.payment, ev.received).Ok?
  }

  /** One that puts an invoice under review which no payment under review holds. */
  ghost predicate Harms(db: Db, ev: Event) {
    ComesLate(db, ev)
    && exists i :: 0 <= i < |db.invoices| && db.invoices[i].status.Unpaid? && db.payments[ev.payment].Holds(i) && !Reviewed(db, i)
  }

  /** What is under review stays covered when nothing is marked and no payment under review is decided. */
  lemma {:induction false} MovesReviewed(db: Db, d: Db)
    requires AllReviewed(db) && Moves(db, d)
    ensures AllReviewed(d)
  {
    forall i | 0 <= i < |d.invoices| && d.invoices[i].status.Pending? ensures Reviewed(d, i) {
      assert Reviewed(db, i);
      var j :| 0 <= j < |db.payments| && db.payments[j].status.InReview? && db.payments[j].Holds(i);
      assert Moved(db.payments[j], d.payments[j]);
      HoldsSame(db.payments[j], d.payments[j], i);
    }
  }

  /** Payment k goes under review with its invoices. */
  lemma {:induction false} ReviewReviewed(db: Db, k: nat, p: Payment)
    requires AllReviewed(db) && k < |db.payments| && p.items == db.payments[k].items && p.status.InReview?
    ensures AllReviewed(Review(db, k, p))
  {
    var d := Review(db, k, p);
    forall i | 0 <= i < |d.invoices| && d.invoices[i].status.Pending? ensures Reviewed(d, i) {
      if p.Holds(i) {
        assert d.payments[k] == p;
      } else {
        assert Reviewed(db, i);
        var j :| 0 <= j < |db.payments| && db.payments[j].status.InReview? && db.payments[j].Holds(i);
        HoldsSame(p, db.payments[k], i);
        assert j != k && d.payments[j] == db.payments[j];
      }
    }
  }

  /** Payment k is decided, and none of its invoices stays under review. */
  lemma {:induction false} DecidedReviewed(db: Db, d: Db, k: nat)
    requires AllReviewed(db) && k < |db.payments| <= |d.payments|
    requires forall j :: 0 <= j < |db.payments| && j != k ==> Moved(db.payments[j], d.payments[j])
    requires forall i :: 0 <= i < |d.invoices| && d.invoices[i].status.Pending? ==>
               i < |db.invoices| && db.invoices[i].status.Pending? && !db.payments[k].Holds(i)
    ensures AllReviewed(d)
  {
    forall i | 0 <= i < |d.invoices| && d.invoices[i].status.Pending? ensures Reviewed(d, i) {
      assert Reviewed(db, i);
      var j :| 0 <= j < |db.payments| && db.payments[j].status.InReview? && db.payments[j].Holds(i);
      assert j != k && Moved(db.payments[j], d.payments[j]);
      HoldsSame(db.payments[j], d.payments[j], i);
    }
  }

  lemma {:induction false} RejectReviewed(db: Db, k: nat, why: bool)
    requires AllReviewed(db)
    ensures AllReviewed(Step(db, Reject(k, why)))
  {
    if RejectPayment(db, k, why).Ok? {
      var d := RejectPayment(db, k, why).value;
      forall i | 0 <= i < |d.invoices| && d.invoices[i].status.Pending?
        ensures db.invoices[i].status.Pending? && !db.payments[k].Holds(i)
      {
        HoldsSame(d.payments[k], db.payments[k], i);
      }
      DecidedReviewed(db, d, k);
    }
  }

  /** Once a payment's items are settled, an invoice still under review is none of them, and was under review before. */
  lemma {:induction false} SettledNotPending(db: Db, d: Db, p: Payment, i: nat)
    requires DistinctItems(db, p.items) && ItemsSettled(db, d, p.items, |p.items|)
    requires i < |d.invoices| && d.invoices[i].status.Pending?
    ensures !p.Holds(i) && i < |db.invoices| && db.invoices[i].status.Pending?
  {
  }

  lemma {:induction false} ApproveReviewed(db: Db, k: nat, deposit: Option<int>)
    requires Inv(db) && AllReviewed(db)
    ensures AllReviewed(Step(db, Approve(k, deposit)))
  {
    hide SettlePayment;
    hide EnforceUpTo;
    hide Inv;
    hide AllReviewed;
    if Approvable(db, k) && ItemsInRange(db, db.payments[k].items) {
      var d, s := ApprovePayment(db, k, deposit).value, SettlePayment(db, k, deposit);
      ApproveMoves(db, k, deposit);
      SettlePaymentKeeps(db, k, deposit);
      var a := db.payments[k := ApprovedPayment(db.payments[k], deposit)];
      forall j | 0 <= j < |db.payments| && j != k ensures Moved(db.payments[j], d.payments[j]) {
        assert Moved(a[j], d.payments[j]);
      }
      forall i | 0 <= i < |d.invoices| && d.invoices[i].status.Pending?
        ensures i < |db.invoices| && db.invoices[i].status.Pending? && !db.payments[k].Holds(i)
      {
        assert s.invoices[i].status.Pending?;
        SettledNotPending(BookPayment(db, k, deposit).db, s, db.payments[k], i);
      }
      DecidedReviewed(db, d, k);
    }
  }

  /** One event, whatever happened before: the marks of review stay right if and only if the event does no harm. */
  lemma {:induction false} StepReviewed(db: Db, ev: Event)
    requires Inv(db) && AllReviewed(db)
    ensures AllReviewed(Step(db, ev)) <==> !Harms(db, ev)
  {
    hide ApprovePayment;
    hide Inv;
    hide AllReviewed;
    match ev
    case Approve(k, deposit) => ApproveReviewed(db, k, deposit);
    case Reject(k, why) => RejectReviewed(db, k, why);
    case Receipt(k, allowed) =>
      if SubmitReceipt(db, k, allowed).Ok? { ReviewReviewed(db, k, db.payments[k].(status := InReview).WithLock()); }
    case Ambiguous(k) =>
      if HoldAmbiguous(db, k).Ok? { ReviewReviewed(db, k, db.payments[k].(status := InReview).WithLock()); }
    case NearMiss(k, amount) =>
      if FlagMismatch(db, k, amount).Ok? {
        if db.payments[k].Matchable() {
          ReviewReviewed(db, k, Flagged(db.payments[k], amount));
        } else {
          LateFlag(db, k, amount);
        }
      }
    case _ =>
      StepMoves(db, ev);
      MovesReviewed(db, Step(db, ev));
  }

  ghost predicate AlwaysReviewed(db: Db, events: seq<Event>) {
    forall i :: 0 <= i <= |events| ==> AllReviewed(Run(db, events[..i]))
  }

  ghost predicate NoneHarms(db: Db, events: seq<Event>) {
    forall i :: 0 <= i < |events| ==> !Harms(Run(db, events[..i]), events[i])
  }

  /** Both, one event later. */
  lemma {:induction false} ReviewedPush(db: Db, before: seq<Event>, ev: Event)
    ensures AlwaysReviewed(db, before + [ev]) <==> AlwaysReviewed(db, before) && AllReviewed(Run(db, before + [ev]))
    ensures NoneHarms(db, before + [ev]) <==> NoneHarms(db, before) && !Harms(Run(db, before), ev)
  {
    hide Run;
    hide AllReviewed;
    hide Harms;
    var events := before + [ev];
    assert events[..|events|] == events;
    forall i | 0 <= i <= |before| ensures events[..i] == before[..i] {}
    assert before[..|before|] == before;
    if AlwaysReviewed(db, events) {
      assert AllReviewed(Run(db, events[..|events|]));
      forall i | 0 <= i <= |before| ensures AllReviewed(Run(db, before[..i])) { assert AllReviewed(Run(db, events[..i])); }
    }
    if NoneHarms(db, events) {
      assert !Harms(Run(db, events[..|before|]), events[|before|]);
      forall i | 0 <= i < |before| ensures !Harms(Run(db, before[..i]), before[i]) {
        assert !Harms(Run(db, events[..i]), events[i]);
      }
    }
  }

  /** Over every run, each invoice under review is at every point an item of a payment under review if and only if no
      event of the run does harm: if no near miss comes too late for an invoice that nothing else holds under review. */
  lemma {:induction false} ReviewedUnlessHarmed(db: Db, events: seq<Event>)
    requires Inv(db) && AllReviewed(db)
    ensures AlwaysReviewed(db, events) <==> NoneHarms(db, events)
    decreases |events|
  {
    hide Step;
    hide Inv;
    hide AllReviewed;
    hide Harms;
    if events != [] {
      var before, ev := events[..|events| - 1], events[|events| - 1];
      ReviewedUnlessHarmed(db, before);
      assert events == before + [ev] && before == before[..|before|];
      RunKeeps(db, before);
      if AllReviewed(Run(db, before)) {
        StepReviewed(Run(db, before), ev);
      }
      ReviewedPush(db, before, ev);
    }
  }
}
