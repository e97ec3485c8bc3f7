// Setting and removing an admin's traffic limit, and what it is charged for.
module LimitCharges {
  import opened Wrappers
  import opened Basics
  import opened Sums
  import opened Pricing

  /** A panel admin's limit and the charges it has caused, as (bytes, amount). */
  datatype Account = Account(bytes: int, limited: bool, last: int, charged: seq<Charge>)

  datatype Charge = Charge(bytes: nat, amount: nat)

  datatype Action = Set | Add | Reduce | Unknown

  predicate Unlimited(a: Account) { !(a.limited && a.bytes > 0) }

  /** What "add", "reduce" and the charge start from: the limit, or the last finite one. */
  function BaseLimit(a: Account): int {
    if a.limited && a.bytes > 0 then a.bytes else a.last
  }

  /** Truncation toward zero. */
  function Truncate(x: real): int {
    if x >= 0.0 then x.Floor else -(-x).Floor
  }

  /** The new limit in bytes; the value is in bytes too, and need not be whole. */
  function NewLimit(base: int, action: Action, value: real): Option<int> {
    match action
    case Set => Some(Truncate(value))
    case Add => Some(Truncate(base as real + value))
    case Reduce => Some(Max(0, Truncate(base as real - value)))
    case Unknown => None
  }

  // ---- set_limit and remove_limit ----

  /** The limit is changed, or left as it was when the action is unknown, a raise has no price, or the
      panel refuses. */
  function SetLimit(a: Account, action: Action, value: real, price: Option<nat>, panelOk: bool): Account {
    var base := BaseLimit(a);
    match NewLimit(base, action, value)
    case None => a
    case Some(bytes) =>
      if (bytes > base && price.None?) || !panelOk then a
      else
        var b := a.(bytes := bytes, limited := bytes > 0, last := if bytes > 0 then bytes else a.last);
        if bytes > base then b.(charged := a.charged + [Charge(bytes - base, ChargeAmount(bytes - base, price.value))]) else b
  }

  function RemoveLimit(a: Account, panelOk: bool): Account {
    var before := if a.limited then a.bytes else 0;
    if !panelOk then a
    else a.(bytes := 0, limited := false, last := if before != 0 then before else a.last)
  }

  datatype Event =
    | Change(action: Action, value: real, price: Option<nat>, panelOk: bool)
    | Remove(panelOk: bool)

  function Step(a: Account, ev: Event): Account {
    match ev
    case Change(action, value, price, ok) => SetLimit(a, action, value, price, ok)
    case Remove(ok) => RemoveLimit(a, ok)
  }

  function Run(a: Account, events: seq<Event>): Account {
    if events == [] then a else Step(Run(a, events[..|events| - 1]), events[|events| - 1])
  }

  // ---- what a change does, said outright ----

  /** n is x without its fraction. */
  predicate Whole(x: real, n: int) {
    if x >= 0.0 then n as real <= x < n as real + 1.0 else n as real - 1.0 < x <= n as real
  }

  /** What the admin has, or the last finite limit it had, and n bytes asked for on top of it, off it or instead of it. */
  predicate Wanted(base: int, action: Action, value: real, n: int) {
    match action
    case Set => Whole(value, n)
    case Add => Whole(base as real + value, n)
    case Reduce => if base as real < value then n == 0 else Whole(base as real - value, n)
    case Unknown => false
  }

  function Started(a: Account): int { if Unlimited(a) then a.last else a.bytes }

  /** An accepted change makes the limit exactly the whole bytes asked for, none at all when they are zero or less, and
      charges exactly what they exceed the start by; it is accepted unless the panel refuses or a rise has no price. */
  lemma {:induction false} ChangeExact(a: Account, action: Action, value: real, price: Option<nat>, panelOk: bool, n: int)
    requires Wanted(Started(a), action, value, n)
    ensures var b, rise := SetLimit(a, action, value, price, panelOk), n - Started(a);
            if panelOk && (rise <= 0 || price.Some?) then
              && b.bytes == n && (b.limited <==> n > 0) && b.last == (if n > 0 then n else a.last)
              && (rise <= 0 ==> b.charged == a.charged)
              && (rise > 0 ==> b.charged == a.charged + [Charge(rise, ChargeAmount(rise, price.value))])
            else b == a
  {
  }

  /** Every known action asks for something; an unknown one changes nothing. */
  lemma {:induction false} WantedExists(a: Account, action: Action, value: real, price: Option<nat>, panelOk: bool)
    ensures action.Unknown? <==> forall n :: !Wanted(Started(a), action, value, n)
    ensures action.Unknown? ==> SetLimit(a, action, value, price, panelOk) == a
  {
    if !action.Unknown? {
      assert Wanted(Started(a), action, value, NewLimit(Started(a), action, value).value);
    }
  }

  /** Lifting a limit leaves none, keeps it as the one the next change starts from, and charges nothing. */
  lemma {:induction false} LiftExact(a: Account, panelOk: bool)
    ensures var b := RemoveLimit(a, panelOk);
            if panelOk then
              b == Account(0, false, if a.limited && a.bytes != 0 then a.bytes else a.last, a.charged)
            else b == a
  {
  }

  /** Reducing never goes below zero, and zero means no limit at all: a reduction lifts the limit exactly when it
      leaves less than one byte of the base, and the last finite limit is then what the next change starts from. */
  lemma {:induction false} ReduceToNothing(a: Account, value: real, price: Option<nat>)
    requires Tracks(a) && value >= 0.0
    ensures var b := SetLimit(a, Reduce, value, price, true);
            && (Unlimited(b) <==> BaseLimit(a) as real - value < 1.0)
            && b.charged == a.charged
            && BaseLimit(b) == if Unlimited(b) then BaseLimit(a) else (BaseLimit(a) as real - value).Floor
  {
  }

  /** What was added in whole bytes can be taken off again. */
  lemma {:induction false} AddThenReduce(a: Account, n: nat, price: nat)
    requires Tracks(a) && BaseLimit(a) > 0
    ensures var b := SetLimit(a, Add, n as real, Some(price), true);
            var c := SetLimit(b, Reduce, n as real, None, true);
            BaseLimit(b) == BaseLimit(a) + n && BaseLimit(c) == BaseLimit(a) && !Unlimited(c) && c.charged == b.charged
  {
    var b := SetLimit(a, Add, n as real, Some(price), true);
    assert Truncate(BaseLimit(a) as real + n as real) == BaseLimit(a) + n;
    assert Truncate(BaseLimit(b) as real - n as real) == BaseLimit(a);
  }

  // ---- charged bytes are the rises of the base limit ----

  function BytesOf(): Charge -> int { (c: Charge) => c.bytes }

  function AmountOf(): Charge -> int { (c: Charge) => c.amount }

  /** While limited, the last finite limit is the limit; neither is ever negative. */
  predicate Tracks(a: Account) {
    && (a.limited && a.bytes > 0 ==> a.last == a.bytes)
    && (a.limited ==> a.bytes >= 0)
    && a.last >= 0
  }

  /** A limit, while there is one, is not below the last finite limit kept. */
  predicate NotBehind(a: Account) {
    && (a.limited && a.bytes > 0 ==> a.last <= a.bytes)
    && (a.limited ==> a.bytes >= 0)
    && a.last >= 0
  }

  /** The sum of the rises of the base limit along a run. */
  function Rises(a: Account, events: seq<Event>): int {
    if events == [] then 0
    else
      var before := Run(a, events[..|events| - 1]);
      Rises(a, events[..|events| - 1]) + Max(0, BaseLimit(Step(before, events[|events| - 1])) - BaseLimit(before))
  }

  /** The event charges exactly the rise of the base limit. */
  predicate ChargesRise(a: Account, ev: Event) {
    var b := Step(a, ev);
    Sum(b.charged, BytesOf()) == Sum(a.charged, BytesOf()) + Max(0, BaseLimit(b) - BaseLimit(a))
  }

  /** Only raising a limit above its base moves the base, by exactly the bytes charged. */
  lemma {:induction false} StepRises(a: Account, ev: Event)
    requires NotBehind(a)
    ensures NotBehind(Step(a, ev)) && (Tracks(a) ==> Tracks(Step(a, ev)))
    ensures ChargesRise(a, ev)
  {
    var b := Step(a, ev);
    if b.charged != a.charged {
      SumPush(a.charged, b.charged[|a.charged|], BytesOf());
    }
  }

  /** Over every run the bytes charged are exactly the rises of the base limit. */
  lemma {:induction false} ChargedIsRises(a: Account, events: seq<Event>)
    requires NotBehind(a)
    ensures NotBehind(Run(a, events)) && (Tracks(a) ==> Tracks(Run(a, events)))
    ensures Sum(Run(a, events).charged, BytesOf()) == Sum(a.charged, BytesOf()) + Rises(a, events)
  {
    if events != [] {
      ChargedIsRises(a, events[..|events| - 1]);
      StepRises(Run(a, events[..|events| - 1]), events[|events| - 1]);
    }
  }

  /** And exactly from these accounts: each event charges the rise if and only if there is no limit below the last
      finite one kept. Where there is, setting the limit to zero lifts it and raises the base for nothing. */
  lemma {:induction false} ChargesRiseUnlessBehind(a: Account)
    requires a.last >= 0 && (a.limited ==> a.bytes >= 0)
    ensures (forall ev :: ChargesRise(a, ev)) <==> !(a.limited && 0 < a.bytes < a.last)
    ensures a.limited && 0 < a.bytes < a.last ==> !ChargesRise(a, Change(Set, 0.0, None, true))
  {
    if NotBehind(a) {
      forall ev ensures ChargesRise(a, ev) { StepRises(a, ev); }
    } else {
      assert Step(a, Change(Set, 0.0, None, true)).charged == a.charged;
      assert !ChargesRise(a, Change(Set, 0.0, None, true));
    }
  }

  /** Going unlimited and back charges the new limit less the last finite one, and nothing for the way out. */
  lemma {:induction false} UnlimitedAndBack(a: Account, value: real, price: nat)
    requires Tracks(a) && a.limited && a.bytes > 0 && value >= 0.0
    ensures var b := SetLimit(RemoveLimit(a, true), Set, value, Some(price), true);
            b.charged == if value.Floor > a.bytes
                         then a.charged + [Charge(value.Floor - a.bytes, ChargeAmount(value.Floor - a.bytes, price))]
                         else a.charged
  {
  }

  // ---- rounding ----

  /** At one price, charges stray from price times volume by at most half a toman each. */
  lemma {:induction false} RoundedTotal(charged: seq<Charge>, price: nat)
    requires forall k :: 0 <= k < |charged| ==> charged[k].amount == ChargeAmount(charged[k].bytes, price)
    ensures -GIB * |charged| <= 2 * (GIB * Sum(charged, AmountOf()) - price * Sum(charged, BytesOf())) <= GIB * |charged|
  {
    if charged != [] {
      var rest, c := charged[..|charged| - 1], charged[|charged| - 1];
      RoundedTotal(rest, price);
      RoundingError(c.bytes * price, GIB);
      Distribute(price, Sum(rest, BytesOf()), c.bytes);
    }
  }

  lemma {:induction false} Distribute(price: int, x: int, y: int)
    ensures price * (x + y) == price * x + y * price
  {
  }

  /** Every run of raises at one price charges within half a toman per charge of price times the total rise. */
  lemma {:induction false} FairPrice(a: Account, events: seq<Event>, price: nat)
    requires NotBehind(a) && a.charged == []
    requires forall k :: 0 <= k < |events| && events[k].Change? ==> events[k].price == Some(price) || events[k].price == None
    ensures var b := Run(a, events);
            -GIB * |b.charged| <= 2 * (GIB * Sum(b.charged, AmountOf()) - price * Rises(a, events)) <= GIB * |b.charged|
  {
    ChargedIsRises(a, events);
    OnePrice(a, events, price);
    RoundedTotal(Run(a, events).charged, price);
  }

  lemma {:induction false} OnePrice(a: Account, events: seq<Event>, price: nat)
    requires a.charged == []
    requires forall k :: 0 <= k < |events| && events[k].Change? ==> events[k].price == Some(price) || events[k].price == None
    ensures forall k :: 0 <= k < |Run(a, events).charged| ==>
              Run(a, events).charged[k].amount == ChargeAmount(Run(a, events).charged[k].bytes, price)
  {
    if events != [] {
      OnePrice(a, events[..|events| - 1], price);
    }
  }

  // ---- the program's own form ----

  class PanelAdmin {
    var bytes: int
    var limited: bool
    var last: int
    var charged: seq<Charge>

    function State(): Account
      reads this
    {
      Account(bytes, limited, last, charged)
    }

    method SetTo(action: Action, value: real, price: Option<nat>, panelOk: bool) returns (done: bool)
      modifies this
      ensures State() == SetLimit(old(State()), action, value, price, panelOk)
      ensures !done ==> State() == old(State())
    {
      var base := BaseLimit(State());
      var wanted := NewLimit(base, action, value);
      if wanted.None? {
        return false;
      }
      var next := wanted.value;
      if next > base && price.None? {
        return false;
      }
      if !panelOk {
        return false;
      }
      bytes := next;
      limited := next > 0;
      if next > 0 {
        last := next;
      }
      if next > base {
        charged := charged + [Charge(next - base, ChargeAmount(next - base, price.value))];
      }
      done := true;
    }

    method Lift(panelOk: bool) returns (done: bool)
      modifies this
      ensures State() == RemoveLimit(old(State()), panelOk)
      ensures done <==> panelOk
    {
      var before := if limited then bytes else 0;
      if !panelOk {
        return false;
      }
      bytes := 0;
      limited := false;
      if before != 0 {
        last := before;
      }
      done := true;
    }
  }
}
