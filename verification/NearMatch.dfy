// Which open payment a deposit of nearly the right amount belongs to.
module NearMatch {
  import opened Wrappers
  import opened Records

  const SKEW: int := 120

  /** To the nearest integer, a half to the even one. */
  function HalfEven(x: real): (n: int)
    ensures x - 0.5 <= n as real <= x + 0.5
    ensures n as real == x <==> x == x.Floor as real
    ensures n as real == x + 0.5 || n as real == x - 0.5 ==> n % 2 == 0
  {
    var f := x.Floor;
    if x - f as real < 0.5 || (x - f as real == 0.5 && f % 2 == 0) then f else f + 1
  }

  predicate Whole(x: real) { x == HalfEven(x) as real }

  predicate OpenAt(p: Payment, at: int, grace: int) {
    p.Matchable() && p.created <= at + SKEW && p.expires >= at - grace
  }

  /** The deposit is ten times, or a tenth of, the amount: a rial and toman mix-up. */
  predicate UnitMixUp(p: Payment, t: real) {
    (Whole(t * 10.0) && p.unique as real == t * 10.0) || (Whole(t / 10.0) && p.unique as real == t / 10.0)
  }

  function Distance(p: Payment, t: real): real {
    if t < p.unique as real then p.unique as real - t else t - p.unique as real
  }

  /** Off by something, but by at most a fifth of the payment. */
  predicate Close(p: Payment, t: real) {
    p.unique as real != t && Distance(p, t) <= p.unique as real * 0.2
  }

  predicate InWindow(p: Payment, t: real) {
    HalfEven(t / 1.2) - 1 <= p.unique <= HalfEven(t / 0.8) + 1
  }

  /** The rounded window of the query never loses a close payment; it would not even without its slack of one. */
  lemma {:induction false} WindowLosesNone(p: Payment, t: real)
    requires t > 0.0 && Close(p, t)
    ensures InWindow(p, t) && HalfEven(t / 1.2) <= p.unique <= HalfEven(t / 0.8)
  {
    var inv := p.unique as real;
    assert inv <= t / 0.8 && t / 1.2 <= inv;
    Squeeze(t / 1.2, p.unique);
    Squeeze(t / 0.8, p.unique);
  }

  /** Rounding never moves a number past an integer. */
  lemma {:induction false} Squeeze(x: real, n: int)
    ensures x <= n as real ==> HalfEven(x) <= n
    ensures n as real <= x ==> n <= HalfEven(x)
  {
  }

  /** k is the first of the rows that satisfy p. */
  ghost predicate First(rows: seq<Payment>, k: nat, p: Payment -> bool) {
    k < |rows| && p(rows[k]) && forall j :: 0 <= j < k ==> !p(rows[j])
  }

  /** k is the first of the closest among all open payments that are close, as if there were no window. */
  ghost predicate Closest(rows: seq<Payment>, t: real, at: int, grace: int, k: nat) {
    && k < |rows| && OpenAt(rows[k], at, grace) && Close(rows[k], t)
    && forall j :: 0 <= j < |rows| && OpenAt(rows[j], at, grace) && Close(rows[j], t) ==>
         if j < k then Distance(rows[k], t) < Distance(rows[j], t) else Distance(rows[k], t) <= Distance(rows[j], t)
  }

  /** What the words mean: a mix-up is exactly a factor of ten; close is off by something but at most a fifth of the
      payment; and a payment is open that can still be paid, was started at most two minutes after the deposit, and
      whose time was up at most the grace before it. */
  lemma {:induction false} MatchMeans(p: Payment, t: real, at: int, grace: int)
    ensures UnitMixUp(p, t) <==> p.unique as real == 10.0 * t || 10.0 * (p.unique as real) == t
    ensures Close(p, t) <==> p.unique as real != t && 4.0 * (p.unique as real) <= 5.0 * t <= 6.0 * (p.unique as real)
    ensures OpenAt(p, at, grace) <==>
              && (p.status.AwaitingTransfer? || p.status.InReview? || p.status.Expired?)
              && p.created - 2 * 60 <= at <= p.expires + grace
  {
  }

  /** Over the rows, newest first. A mix-up of units comes before anything else; then the closest payment. */
  method Near(rows: seq<Payment>, amount: Option<real>, at: int, grace: int) returns (found: Option<nat>)
    ensures amount.None? || amount.value <= 0.0 ==> found.None?
    ensures amount.Some? && amount.value > 0.0 ==>
              var t := amount.value;
              if exists j :: 0 <= j < |rows| && OpenAt(rows[j], at, grace) && UnitMixUp(rows[j], t) then
                found.Some? && First(rows, found.value, p => OpenAt(p, at, grace) && UnitMixUp(p, t))
              else if exists j :: 0 <= j < |rows| && OpenAt(rows[j], at, grace) && Close(rows[j], t) then
                found.Some? && Closest(rows, t, at, grace, found.value)
              else found.None?
  {
    if amount.None? || amount.value <= 0.0 {
      return None;
    }
    var t := amount.value;
    for i := 0 to |rows|
      invariant forall j :: 0 <= j < i ==> !(OpenAt(rows[j], at, grace) && UnitMixUp(rows[j], t))
    {
      if OpenAt(rows[i], at, grace) && UnitMixUp(rows[i], t) {
        return Some(i);
      }
    }
    found := None;
    for i := 0 to |rows|
      invariant found.None? ==> forall j :: 0 <= j < i && OpenAt(rows[j], at, grace) ==> !Close(rows[j], t)
      invariant found.Some? ==> found.value < i && Closest(rows[..i], t, at, grace, found.value)
    {
      var p := rows[i];
      if Close(p, t) {
        WindowLosesNone(p, t);
      }
      if OpenAt(p, at, grace) && InWindow(p, t) && Close(p, t) {
        if found.None? || Distance(p, t) < Distance(rows[found.value], t) {
          found := Some(i);
        }
      }
      assert rows[..i + 1] == rows[..i] + [p];
    }
    assert rows[..|rows|] == rows;
  }
}
