// A manager's volume whose cap check and record are apart: other requests may come between.
module CapRaces {
  import opened Wrappers
  import opened Basics
  import opened Records
  import opened Sums
  import opened Ledger
  import opened Pricing
  import opened Approvals

  /** A request that has passed the check, and how many requests there were then. */
  datatype Passed = Passed(manager: nat, admin: Admin, gb: nat, creates: bool, seen: nat)

  datatype Office = Office(desk: Desk, passed: map<nat, Passed>)

  datatype Move =
    | Check(job: nat, manager: nat, admin: Admin, gb: int, creates: bool)
    | Record(job: nat, panelOk: bool)
    | Other(what: Event)

  /** The others are asking, approving and rejecting; a manager's own volume comes by its check. */
  predicate Allowed(ev: Event) { !ev.Create? && !ev.Add? }

  function Recorded(d: Desk, p: Passed, panelOk: bool): Result<Desk, Refusal> {
    if p.creates then MakeAdmin(d, p.manager, p.admin, p.gb, panelOk) else GiveVolume(d, p.manager, p.admin, p.gb, panelOk)
  }

  ghost function Turn(s: Office, mv: Move): Office {
    match mv
    case Check(j, m, n, gb, creates) =>
      if j in s.passed || CheckVolume(s.desk, m, gb).Some? then s
      else s.(passed := s.passed[j := Passed(m, n, gb, creates, |s.desk.requests|)])
    case Record(j, ok) =>
      if j !in s.passed then s
      else Office(Settle(s.desk, Recorded(s.desk, s.passed[j], ok)), s.passed - {j})
    case Other(ev) => if Allowed(ev) then s.(desk := Approvals.Step(s.desk, ev)) else s
  }

  ghost function Turns(s: Office, moves: seq<Move>): Office {
    if moves == [] then s else Turn(Turns(s, moves[..|moves| - 1]), moves[|moves| - 1])
  }

  lemma {:induction false} TurnsPush(s: Office, moves: seq<Move>, mv: Move)
    ensures Turns(s, moves + [mv]) == Turn(Turns(s, moves), mv)
  {
    assert (moves + [mv])[..|moves|] == moves;
  }

  // ---- what came since the check ----

  /** A manager's waiting volume among the requests from the k-th on. */
  function GivenFrom(requests: seq<Request>, m: nat, k: nat): int
    requires k <= |requests|
  {
    Sum(requests[k..], GivenOf(m))
  }

  function GivenUpTo(requests: seq<Request>, m: nat, k: nat): int
    requires k <= |requests|
  {
    Sum(requests[..k], GivenOf(m))
  }

  /** The move records a volume of m. */
  predicate RecordsFor(s: Office, mv: Move, m: nat) {
    mv.Record? && mv.job in s.passed && s.passed[mv.job].manager == m && m in s.desk.caps
    && Recorded(s.desk, s.passed[mv.job], mv.panelOk).Ok?
  }

  /** What m recorded since this check and what still waits of it is more than the room that is left beside the
      older requests. */
  predicate TooLate(s: Office, mv: Move, m: nat) {
    && RecordsFor(s, mv, m)
    && var p := s.passed[mv.job];
       p.seen <= |s.desk.requests|
       && GivenFrom(s.desk.requests, m, p.seen) > s.desk.caps[m] - p.gb - GivenUpTo(s.desk.requests, m, p.seen)
  }

  /** A check passed once still holds of the requests it saw: they can only be decided. */
  ghost predicate ChecksHold(s: Office, m: nat) {
    forall j :: j in s.passed && s.passed[j].manager == m ==>
      var p := s.passed[j];
      p.seen <= |s.desk.requests|
      && (m in s.desk.caps ==> GivenUpTo(s.desk.requests, m, p.seen) + p.gb <= s.desk.caps[m])
  }

  /** No request of m's own was recorded since the check. */
  predicate Undisturbed(s: Office, mv: Move, m: nat) {
    RecordsFor(s, mv, m) ==>
      forall k :: s.passed[mv.job].seen <= k < |s.desk.requests| ==>
        s.desk.requests[k].manager != Some(m) || s.desk.requests[k].kind.AdminRequest?
  }

  lemma {:induction false} GivenSplits(requests: seq<Request>, m: nat, k: nat)
    requires k <= |requests|
    ensures Sum(requests, GivenOf(m)) == GivenUpTo(requests, m, k) + GivenFrom(requests, m, k)
  {
    assert requests == requests[..k] + requests[k..];
    SumConcat(requests[..k], requests[k..], GivenOf(m));
  }

  lemma {:induction false} GivenNonNegative(requests: seq<Request>, m: nat)
    ensures Sum(requests, GivenOf(m)) >= 0
  {
    SumMember(requests, GivenOf(m));
  }

  /** Requests are only added, or decided for good. */
  ghost predicate OnlyDecided(a: seq<Request>, b: seq<Request>, m: nat) {
    |a| <= |b| && forall k :: 0 <= k < |a| ==> GivenOf(m)(b[k]) <= GivenOf(m)(a[k])
  }

  lemma {:induction false} StepDecides(d: Desk, ev: Event, m: nat)
    ensures OnlyDecided(d.requests, Approvals.Step(d, ev).requests, m)
    ensures Approvals.Step(d, ev).caps == d.caps
  {
    hide ChargeVolume;
    hide ChargeAmount;
    hide Bytes;
  }

  lemma {:induction false} DecidedUpTo(a: seq<Request>, b: seq<Request>, m: nat, k: nat)
    requires k <= |a| && OnlyDecided(a, b, m)
    ensures GivenUpTo(b, m, k) <= GivenUpTo(a, m, k)
  {
    SumAtMost(b[..k], GivenOf(m), a[..k], GivenOf(m));
  }

  lemma {:induction false} RecordDecides(d: Desk, p: Passed, ok: bool, m: nat)
    requires Recorded(d, p, ok).Ok?
    ensures var d' := Recorded(d, p, ok).value;
            && d'.caps == d.caps && |d'.requests| == |d.requests| + 1 && d'.requests[..|d.requests|] == d.requests
            && Sum(d'.requests, GivenOf(m)) == Sum(d.requests, GivenOf(m)) + (if p.manager == m then p.gb else 0)
            && OnlyDecided(d.requests, d'.requests, m)
  {
    hide Bytes;
    var d' := Recorded(d, p, ok).value;
    SumPush(d.requests, d'.requests[|d.requests|], GivenOf(m));
    assert d'.requests == d.requests + [d'.requests[|d.requests|]];
  }

  lemma {:induction false} TurnChecks(s: Office, mv: Move, m: nat)
    requires ChecksHold(s, m)
    ensures ChecksHold(Turn(s, mv), m) && Turn(s, mv).desk.caps == s.desk.caps
  {
    hide Approvals.Step;
    hide Recorded;
    var d := Turn(s, mv);
    match mv
    case Check(j, x, n, gb, creates) =>
      GivenWithinPending(s.desk.requests, m);
      assert s.desk.requests[..|s.desk.requests|] == s.desk.requests;
    case Record(j, ok) =>
      if j in s.passed && Recorded(s.desk, s.passed[j], ok).Ok? {
        RecordDecides(s.desk, s.passed[j], ok, m);
        ChecksStay(s, d, m);
      }
    case Other(ev) =>
      StepDecides(s.desk, ev, m);
      ChecksStay(s, d, m);
  }

  lemma {:induction false} ChecksStay(s: Office, d: Office, m: nat)
    requires ChecksHold(s, m) && d.desk.caps == s.desk.caps && OnlyDecided(s.desk.requests, d.desk.requests, m)
    requires forall j :: j in d.passed ==> j in s.passed && d.passed[j] == s.passed[j]
    ensures ChecksHold(d, m)
  {
    forall j | j in d.passed && d.passed[j].manager == m
      ensures var p := d.passed[j];
              p.seen <= |d.desk.requests| && (m in d.desk.caps ==> GivenUpTo(d.desk.requests, m, p.seen) + p.gb <= d.desk.caps[m])
    {
      DecidedUpTo(s.desk.requests, d.desk.requests, m, s.passed[j].seen);
    }
  }

  /** One move keeps the cap if and only if it is not a record that comes too late for what was recorded since its check. */
  lemma {:induction false} TurnCap(s: Office, mv: Move, m: nat)
    requires CapOk(s.desk, m) && ChecksHold(s, m)
    ensures CapOk(Turn(s, mv).desk, m) <==> !TooLate(s, mv, m)
  {
    hide Approvals.Step;
    hide Recorded;
    match mv
    case Check(j, x, n, gb, creates) =>
    case Record(j, ok) =>
      if j in s.passed && Recorded(s.desk, s.passed[j], ok).Ok? {
        RecordDecides(s.desk, s.passed[j], ok, m);
        if s.passed[j].manager == m {
          GivenSplits(s.desk.requests, m, s.passed[j].seen);
        }
      }
    case Other(ev) => CapStep(s.desk, ev, m);
  }

  ghost predicate AlwaysCapped(s: Office, moves: seq<Move>, m: nat) {
    forall i :: 0 <= i <= |moves| ==> CapOk(Turns(s, moves[..i]).desk, m)
  }

  ghost predicate NoneTooLate(s: Office, moves: seq<Move>, m: nat) {
    forall i :: 0 <= i < |moves| ==> !TooLate(Turns(s, moves[..i]), moves[i], m)
  }

  lemma {:induction false} CappedPush(s: Office, before: seq<Move>, mv: Move, m: nat)
    ensures AlwaysCapped(s, before + [mv], m) <==> AlwaysCapped(s, before, m) && CapOk(Turns(s, before + [mv]).desk, m)
    ensures NoneTooLate(s, before + [mv], m) <==> NoneTooLate(s, before, m) && !TooLate(Turns(s, before), mv, m)
  {
    hide Turns;
    hide CapOk;
    hide TooLate;
    var moves := before + [mv];
    assert moves[..|moves|] == moves && before[..|before|] == before;
    forall i | 0 <= i <= |before| ensures moves[..i] == before[..i] {}
    if AlwaysCapped(s, moves, m) {
      assert CapOk(Turns(s, moves[..|moves|]).desk, m);
      forall i | 0 <= i <= |before| ensures CapOk(Turns(s, before[..i]).desk, m) { assert CapOk(Turns(s, moves[..i]).desk, m); }
    }
    if NoneTooLate(s, moves, m) {
      assert !TooLate(Turns(s, moves[..|before|]), moves[|before|], m);
      forall i | 0 <= i < |before| ensures !TooLate(Turns(s, before[..i]), before[i], m) {
        assert !TooLate(Turns(s, moves[..i]), moves[i], m);
      }
    }
  }

  /** Over every run a manager's waiting volume is within its cap at every point if and only if each record of its own
      finds that what it recorded since the check, as far as it still waits, fits the room that is left. */
  lemma {:induction false} CappedUnlessTooLate(s: Office, moves: seq<Move>, m: nat)
    requires CapOk(s.desk, m) && ChecksHold(s, m)
    ensures ChecksHold(Turns(s, moves), m)
    ensures AlwaysCapped(s, moves, m) <==> NoneTooLate(s, moves, m)
  {
    hide Turn;
    hide CapOk;
    hide ChecksHold;
    hide TooLate;
    if moves != [] {
      var before, mv := moves[..|moves| - 1], moves[|moves| - 1];
      assert moves == before + [mv] && before[..|before|] == before;
      CappedUnlessTooLate(s, before, m);
      TurnChecks(Turns(s, before), mv, m);
      if CapOk(Turns(s, before).desk, m) {
        TurnCap(Turns(s, before), mv, m);
      }
      CappedPush(s, before, mv, m);
    }
  }

  /** In particular, it holds when no request of the manager's own is recorded between a check and its record. */
  lemma {:induction false} UndisturbedIsInTime(s: Office, mv: Move, m: nat)
    requires ChecksHold(s, m) && Undisturbed(s, mv, m)
    ensures !TooLate(s, mv, m)
  {
    hide Recorded;
    if RecordsFor(s, mv, m) {
      var later := s.desk.requests[s.passed[mv.job].seen..];
      forall k | 0 <= k < |later| ensures GivenOf(m)(later[k]) == 0 {
        assert later[k] == s.desk.requests[s.passed[mv.job].seen + k];
      }
      SumZero(later, GivenOf(m));
    }
  }

  lemma {:induction false} UndisturbedIsCapped(s: Office, moves: seq<Move>, m: nat)
    requires CapOk(s.desk, m) && ChecksHold(s, m)
    requires forall i :: 0 <= i < |moves| ==> Undisturbed(Turns(s, moves[..i]), moves[i], m)
    ensures AlwaysCapped(s, moves, m)
  {
    hide CapOk;
    hide ChecksHold;
    hide TooLate;
    hide Undisturbed;
    hide Turns;
    CappedUnlessTooLate(s, moves, m);
    forall i | 0 <= i < |moves| ensures !TooLate(Turns(s, moves[..i]), moves[i], m) {
      CappedUnlessTooLate(s, moves[..i], m);
      UndisturbedIsInTime(Turns(s, moves[..i]), moves[i], m);
    }
  }

  // ---- the cap bounds nothing when checks come first ----

  /** n checks of gb for admin x, then their n records. */
  function AllChecks(m: nat, x: Admin, gb: nat, n: nat): seq<Move> {
    if n == 0 then [] else AllChecks(m, x, gb, n - 1) + [Check(n - 1, m, x, gb, false)]
  }

  function AllRecords(n: nat, k: nat): seq<Move>
    requires k <= n
  {
    if k == 0 then [] else AllRecords(n, k - 1) + [Record(k - 1, true)]
  }

  /** The jobs from lo to hi have passed their checks as p says, and no others. */
  ghost predicate Waiters(s: Office, lo: nat, hi: nat, p: Passed) {
    && (forall j: nat :: j in s.passed <==> lo <= j < hi)
    && (forall j: nat :: j in s.passed ==> s.passed[j] == p)
  }

  lemma {:induction false} ChecksPass(s: Office, m: nat, x: Admin, gb: nat, n: nat)
    requires s.passed == map[] && CheckVolume(s.desk, m, gb).None?
    ensures var d := Turns(s, AllChecks(m, x, gb, n));
            d.desk == s.desk && Waiters(d, 0, n, Passed(m, x, gb, false, |s.desk.requests|))
  {
    hide Step;
    hide CheckVolume;
    if n > 0 {
      ChecksPass(s, m, x, gb, n - 1);
      TurnsPush(s, AllChecks(m, x, gb, n - 1), Check(n - 1, m, x, gb, false));
    }
  }

  /** Admin x can be given volume. */
  predicate CanGive(d: Desk, x: Admin) { x in d.panel && d.panel[x] > 0 }

  lemma {:induction false} GiftTaken(d: Desk, p: Passed)
    requires !p.creates && CanGive(d, p.admin)
    ensures Recorded(d, p, true).Ok? && CanGive(Recorded(d, p, true).value, p.admin)
  {
    hide Bytes;
  }

  lemma {:induction false} RecordsTurn(s: Office, p: Passed, n: nat, k: nat)
    requires k < n && Waiters(s, k, n, p) && !p.creates && CanGive(s.desk, p.admin)
    ensures var d := Turn(s, Record(k, true));
            && d == Office(Recorded(s.desk, p, true).value, s.passed - {k})
            && Waiters(d, k + 1, n, p) && CanGive(d.desk, p.admin)
  {
    hide Recorded;
    GiftTaken(s.desk, p);
  }

  lemma {:induction false} RecordsAddUp(s: Office, p: Passed, n: nat, k: nat)
    requires k <= n && Waiters(s, 0, n, p) && !p.creates && CanGive(s.desk, p.admin)
    ensures var d := Turns(s, AllRecords(n, k));
            && Waiters(d, k, n, p) && CanGive(d.desk, p.admin) && d.desk.caps == s.desk.caps
            && Sum(d.desk.requests, GivenOf(p.manager)) == Sum(s.desk.requests, GivenOf(p.manager)) + k * p.gb
  {
    hide Turn, Waiters, Sum, GivenOf, Recorded, CanGive;
    if k > 0 {
      var before := AllRecords(n, k - 1);
      RecordsAddUp(s, p, n, k - 1);
      TurnsPush(s, before, Record(k - 1, true));
      RecordsTurn(Turns(s, before), p, n, k - 1);
      GiftTaken(Turns(s, before).desk, p);
      RecordDecides(Turns(s, before).desk, p, true, p.manager);
      OneMore(k, p.gb);
    }
  }

  lemma {:induction false} OneMore(k: nat, gb: nat)
    ensures k * gb == (k - 1) * gb + gb
  {
  }

  /** Requests of one manager that are all checked before any is recorded are all accepted, however many: with n of
      them, each of the whole cap, n times the cap is given. */
  lemma {:induction false} CapBoundsNothing(d: Desk, m: nat, x: Admin, n: nat)
    requires d.requests == [] && m in d.caps && 0 < d.caps[m] <= MAX_GB && CanGive(d, x)
    ensures var r := Turns(Office(d, map[]), AllChecks(m, x, d.caps[m], n) + AllRecords(n, n)).desk;
            Sum(r.requests, GivenOf(m)) == n * d.caps[m] && r.caps == d.caps && (CapOk(r, m) <==> n <= 1)
  {
    hide Turns, Waiters, CanGive;
    var s, gb := Office(d, map[]), d.caps[m];
    ChecksPass(s, m, x, gb, n);
    RecordsAddUp(Turns(s, AllChecks(m, x, gb, n)), Passed(m, x, gb, false, 0), n, n);
    TurnsAppend(s, AllChecks(m, x, gb, n), AllRecords(n, n));
    Times(n, gb);
  }

  lemma {:induction false} Times(n: nat, gb: nat)
    requires gb > 0
    ensures n * gb <= gb <==> n <= 1
  {
    if n > 1 {
      assert n * gb == gb + (n - 1) * gb && (n - 1) * gb >= gb;
    }
  }

  lemma {:induction false} TurnsAppend(s: Office, first: seq<Move>, rest: seq<Move>)
    ensures Turns(s, first + rest) == Turns(Turns(s, first), rest)
    decreases |rest|
  {
    if rest == [] {
      assert first + rest == first;
    } else {
      var before, mv := rest[..|rest| - 1], rest[|rest| - 1];
      TurnsAppend(s, first, before);
      assert first + rest == (first + before) + [mv];
      TurnsPush(s, first + before, mv);
    }
  }

  // ---- without anything between ----

  /** A check and its record at once are the single step of Approvals. */
  lemma {:induction false} CheckedAtOnce(d: Desk, m: nat, x: Admin, gb: int, creates: bool, ok: bool)
    ensures Turns(Office(d, map[]), [Check(0, m, x, gb, creates), Record(0, ok)]).desk
         == Approvals.Step(d, if creates then Create(m, x, gb, ok) else Add(m, x, gb, ok))
  {
    hide Bytes;
    var s := Office(d, map[]);
    TurnsPush(s, [], Check(0, m, x, gb, creates));
    TurnsPush(s, [Check(0, m, x, gb, creates)], Record(0, ok));
    assert [] + [Check(0, m, x, gb, creates)] == [Check(0, m, x, gb, creates)];
    assert [Check(0, m, x, gb, creates)] + [Record(0, ok)] == [Check(0, m, x, gb, creates), Record(0, ok)];
  }
}
