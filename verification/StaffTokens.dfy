// Single-use refresh tokens of the staff panel: revocation rows, their housekeeping, and concurrent refreshes.
module StaffTokens {
  import opened Wrappers

  datatype Kind = Access | Refresh

  /** The claims the server signed; a token issued by it always has an expiry, but decoding does not insist on one. */
  datatype Payload = Payload(kind: Kind, staff: nat, tv: Option<nat>, jti: string, exp: Option<int>)

  datatype Token = Forged | Signed(payload: Payload)

  datatype Error = BadSignature | Expired | WrongType | Used

  datatype Account = Account(active: bool, version: nat)

  /** The revocation rows (one for a jti, with the moment it expires), the accounts, and the clock. */
  datatype Store = Store(revoked: map<string, int>, staff: map<nat, Account>, now: real)

  // ---- the two operations ----

  /** The expiry claim is honoured as section 4.1.4 of RFC 7519 asks: on or after it the token is refused. */
  function Decode(s: Store, t: Token, expected: Kind): Result<Payload, Error> {
    if t.Forged? then Err(BadSignature)
    else
      var p := t.payload;
      if p.exp.Some? && p.exp.value as real <= s.now then Err(Expired)
      else if p.kind != expected then Err(WrongType)
      else if expected.Refresh? && (p.jti == "" || p.jti in s.revoked) then Err(Used)
      else Ok(p)
  }

  function StaffFor(s: Store, p: Payload): Option<nat> {
    if p.staff in s.staff && s.staff[p.staff].active && p.tv == Some(s.staff[p.staff].version) then Some(p.staff) else None
  }

  function RowExpiry(p: Payload): int { match p.exp case Some(e) => e case None => 0 }

  /** The rows whose expiry is not yet past. */
  function Housekept(revoked: map<string, int>, now: real): map<string, int> {
    map j | j in revoked && !((revoked[j] as real) < now) :: revoked[j]
  }

  function Revoked(s: Store, p: Payload): (bool, Store) {
    if p.jti == "" || p.jti in s.revoked then (false, s)
    else (true, s.(revoked := Housekept(s.revoked[p.jti := RowExpiry(p)], s.now)))
  }

  class TokenTable {
    var revoked: map<string, int>
    var staff: map<nat, Account>
    var now: real

    function State(): Store
      reads this
    {
      Store(revoked, staff, now)
    }

    /** The insert is the gate, and only the one who passes it cleans up. */
    method RevokeRefresh(p: Payload) returns (ok: bool)
      modifies `revoked
      ensures (ok, State()) == Revoked(old(State()), p)
    {
      if p.jti == "" || p.jti in revoked {
        return false;
      }
      revoked := revoked[p.jti := RowExpiry(p)];
      var left := revoked.Keys;
      ghost var before := revoked;
      while left != {}
        invariant left <= before.Keys
        invariant forall j :: j in revoked <==> j in before && (j in left || !((before[j] as real) < now))
        invariant forall j :: j in revoked ==> revoked[j] == before[j]
        decreases |left|
      {
        var j :| j in left;
        if (revoked[j] as real) < now {
          revoked := revoked - {j};
        }
        left := left - {j};
      }
      assert revoked == Housekept(before, now);
      return true;
    }

    /** One refresh, run without interruption: decoded, its account still good, and spent. */
    method RefreshOnce(t: Token) returns (ok: bool)
      modifies `revoked
      ensures ok <==> Decode(old(State()), t, Refresh).Ok? && StaffFor(old(State()), t.payload).Some?
      ensures State() == if ok then Revoked(old(State()), t.payload).1 else old(State())
    {
      var d := Decode(State(), t, Refresh);
      if d.Err? || StaffFor(State(), d.value).None? {
        return false;
      }
      ok := RevokeRefresh(d.value);
    }
  }

  // ---- what is accepted ----

  /** A token is accepted as a kind if and only if it is genuine, was issued as that kind and is not at its expiry yet,
      and, as a refresh token, has an id that is not revoked. */
  lemma {:induction false} AcceptedExactly(s: Store, t: Token, kind: Kind)
    ensures Decode(s, t, kind).Ok? <==>
              && t.Signed? && t.payload.kind == kind
              && (match t.payload.exp case Some(e) => s.now < e as real case None => true)
              && (kind.Refresh? ==> t.payload.jti != "" && t.payload.jti !in s.revoked)
    ensures Decode(s, t, kind).Ok? ==> Decode(s, t, kind).value == t.payload
  {
  }

  /** So no token is ever accepted as both, and revocations do not touch access tokens. */
  lemma {:induction false} KindsApart(s: Store, t: Token, revoked: map<string, int>)
    ensures !(Decode(s, t, Access).Ok? && Decode(s, t, Refresh).Ok?)
    ensures Decode(s.(revoked := revoked), t, Access) == Decode(s, t, Access)
  {
  }

  /** Why a token is refused: it is forged; else it is over; else it is of the other kind; else it is spent. */
  lemma {:induction false} RefusedBecause(s: Store, t: Token, kind: Kind)
    ensures Decode(s, t, kind) == Err(BadSignature) <==> t.Forged?
    ensures t.Signed? ==> (Decode(s, t, kind) == Err(Expired) <==> t.payload.exp.Some? && t.payload.exp.value as real <= s.now)
    ensures Decode(s, t, kind) == Err(Used) ==> t.payload.kind.Refresh? && kind.Refresh?
  {
  }

  // ---- what housekeeping may delete ----

  /** A row is deleted exactly when its expiry is past; then the token it revoked is refused as expired anyway. */
  lemma {:induction false} OnlyDeadRowsGo(s: Store, p: Payload, q: Payload)
    requires p.jti in s.revoked && s.revoked[p.jti] == RowExpiry(p) && Revoked(s, q).0
    ensures p.jti !in Revoked(s, q).1.revoked <==> (RowExpiry(p) as real) < s.now
    ensures p.exp.Some? && p.jti !in Revoked(s, q).1.revoked ==> Decode(Revoked(s, q).1, Signed(p), Refresh) == Err(Expired)
  {
  }

  // ---- concurrent requests ----

  datatype Phase = Decoded(p: Payload) | Resolved(p: Payload) | Won(p: Payload) | Refused

  datatype System = System(store: Store, requests: map<nat, Phase>)

  datatype Event =
    | Tick(d: nat)
    | Present(r: nat, t: Token)
    | Resolve(r: nat)
    | Spend(r: nat)
    | LogOut(r: nat)
    | EndSessions(staff: nat)
    | Disable(staff: nat)

  function Step(s: System, e: Event): System {
    match e
    case Tick(d) => s.(store := s.store.(now := s.store.now + d as real))
    case Present(r, t) =>
      if r in s.requests then s
      else s.(requests := s.requests[r := match Decode(s.store, t, Refresh) case Ok(p) => Decoded(p) case Err(_) => Refused])
    case Resolve(r) =>
      if r in s.requests && s.requests[r].Decoded? then
        var p := s.requests[r].p;
        s.(requests := s.requests[r := if StaffFor(s.store, p).Some? then Resolved(p) else Refused])
      else s
    case Spend(r) =>
      if r in s.requests && s.requests[r].Resolved? then
        var p := s.requests[r].p;
        var (ok, store) := Revoked(s.store, p);
        System(store, s.requests[r := if ok then Won(p) else Refused])
      else s
    case LogOut(r) =>
      if r in s.requests && s.requests[r].Decoded? then
        System(Revoked(s.store, s.requests[r].p).1, s.requests[r := Refused])
      else s
    case EndSessions(id) =>
      if id in s.store.staff then
        s.(store := s.store.(staff := s.store.staff[id := s.store.staff[id].(version := s.store.staff[id].version + 1)]))
      else s
    case Disable(id) =>
      if id in s.store.staff then s.(store := s.store.(staff := s.store.staff[id := s.store.staff[id].(active := false)])) else s
  }

  function Run(s: System, events: seq<Event>): System {
    if events == [] then s else Step(Run(s, events[..|events| - 1]), events[|events| - 1])
  }

  /** The token is revoked for as long as it could be accepted. */
  predicate Dead(s: Store, p: Payload) {
    p.exp.Some? && ((p.jti in s.revoked && s.revoked[p.jti] == p.exp.value) || (p.exp.value as real) < s.now)
  }

  lemma {:induction false} DeadRefused(s: Store, p: Payload)
    requires Dead(s, p)
    ensures Decode(s, Signed(p), Refresh).Err?
  {
  }

  lemma {:induction false} StepKeepsDead(s: System, e: Event, p: Payload)
    requires Dead(s.store, p)
    ensures Dead(Step(s, e).store, p)
  {
  }

  lemma {:induction false} RunKeepsDead(s: System, events: seq<Event>, p: Payload)
    requires Dead(s.store, p)
    ensures Dead(Run(s, events).store, p)
    decreases |events|
  {
    if events != [] {
      RunKeepsDead(s, events[..|events| - 1], p);
      StepKeepsDead(Run(s, events[..|events| - 1]), events[|events| - 1], p);
    }
  }

  ghost predicate NeverAccepted(s: System, p: Payload) {
    forall events :: Decode(Run(s, events).store, Signed(p), Refresh).Err?
  }

  /** Once revoking it returned True, no later decode accepts the token, whatever rows housekeeping deletes: exactly
      when the token has an expiry. Without one its row is deleted at once and the token lives on. */
  lemma {:induction false} RevokedForGood(s: System, p: Payload)
    requires Revoked(s.store, p).0 && p.kind.Refresh? && s.store.now > 0.0
    ensures p.exp.Some? <==> NeverAccepted(System(Revoked(s.store, p).1, s.requests), p)
  {
    var t := System(Revoked(s.store, p).1, s.requests);
    if p.exp.Some? {
      assert Dead(t.store, p);
      forall events ensures Decode(Run(t, events).store, Signed(p), Refresh).Err? {
        RunKeepsDead(t, events, p);
        DeadRefused(Run(t, events).store, p);
      }
    } else {
      var none: seq<Event> := [];
      assert Run(t, none) == t;
      assert Decode(Run(t, none).store, Signed(p), Refresh) == Ok(p);
    }
  }

  // ---- single use ----

  /** A token spent by one request can be spent by another only after its expiry, so of the requests for one token
      that end before it, at most one succeeds. */
  lemma {:induction false} SingleUse(s: System, p: Payload, first: nat, mid: seq<Event>, second: nat)
    requires first in s.requests && s.requests[first] == Resolved(p) && Revoked(s.store, p).0
    requires p.exp.Some?
    requires second in Run(Step(s, Spend(first)), mid).requests && Run(Step(s, Spend(first)), mid).requests[second] == Resolved(p)
    ensures Step(s, Spend(first)).requests[first] == Won(p)
    ensures Step(Run(Step(s, Spend(first)), mid), Spend(second)).requests[second] == Won(p) ==>
              (p.exp.value as real) < Run(Step(s, Spend(first)), mid).store.now
  {
    RunKeepsDead(Step(s, Spend(first)), mid, p);
  }

  /** The payload whose revocation the event is, if it is one that wins. */
  function Winner(s: System, e: Event): Option<Payload> {
    match e
    case Spend(r) =>
      if r in s.requests && s.requests[r].Resolved? && Revoked(s.store, s.requests[r].p).0 then Some(s.requests[r].p) else None
    case LogOut(r) =>
      if r in s.requests && s.requests[r].Decoded? && Revoked(s.store, s.requests[r].p).0 then Some(s.requests[r].p) else None
    case _ => None
  }

  /** Somewhere in the run a revocation won, and so cleaned up, at a time past exp. */
  predicate CleanedAfter(s: System, events: seq<Event>, exp: int) {
    events != [] &&
    (var before := events[..|events| - 1];
     CleanedAfter(s, before, exp)
     || (Winner(Run(s, before), events[|events| - 1]).Some? && (exp as real) < Run(s, before).store.now))
  }

  /** No other token has the id of p. */
  predicate OwnId(p: Payload, q: Payload) { q.jti == p.jti ==> q.exp == p.exp }

  ghost predicate OwnIds(s: System, p: Payload) {
    forall r :: r in s.requests && !s.requests[r].Refused? ==> OwnId(p, s.requests[r].p)
  }

  ghost predicate NoneBorrows(events: seq<Event>, p: Payload) {
    forall i :: 0 <= i < |events| && events[i].Present? && events[i].t.Signed? ==> OwnId(p, events[i].t.payload)
  }

  /** While p's row is there it carries p's expiry; and once gone, p's expiry is past. */
  ghost predicate RowOf(s: System, p: Payload, gone: bool)
    requires p.exp.Some?
  {
    && OwnIds(s, p)
    && (gone ==> p.jti !in s.store.revoked && (p.exp.value as real) < s.store.now)
    && (!gone ==> p.jti in s.store.revoked && s.store.revoked[p.jti] == p.exp.value)
  }

  lemma {:induction false} StepRow(s: System, e: Event, p: Payload, gone: bool)
    requires p.exp.Some? && RowOf(s, p, gone) && NoneBorrows([e], p)
    ensures RowOf(Step(s, e), p, gone || (Winner(s, e).Some? && (p.exp.value as real) < s.store.now))
  {
    assert [e][0] == e;
  }

  lemma {:induction false} RunRow(s: System, events: seq<Event>, p: Payload, gone: bool)
    requires p.exp.Some? && RowOf(s, p, gone) && NoneBorrows(events, p)
    ensures RowOf(Run(s, events), p, gone || CleanedAfter(s, events, p.exp.value))
    decreases |events|
  {
    hide Step;
    hide RowOf;
    if events != [] {
      var before, e := events[..|events| - 1], events[|events| - 1];
      assert NoneBorrows(before, p) && NoneBorrows([e], p);
      RunRow(s, before, p, gone);
      StepRow(Run(s, before), e, p, gone || CleanedAfter(s, before, p.exp.value));
    }
  }

  /** The exact condition: a second spend of the token wins if and only if some revocation, of any token, won at a
      time past this one's expiry, be it the first spend itself or one in between. */
  lemma {:induction false} SpentTwice(s: System, p: Payload, first: nat, mid: seq<Event>, second: nat)
    requires first in s.requests && s.requests[first] == Resolved(p) && Revoked(s.store, p).0
    requires p.exp.Some? && OwnIds(s, p) && NoneBorrows(mid, p)
    requires second in Run(Step(s, Spend(first)), mid).requests && Run(Step(s, Spend(first)), mid).requests[second] == Resolved(p)
    ensures var t := Step(s, Spend(first));
            Step(Run(t, mid), Spend(second)).requests[second] == Won(p)
            <==> (p.exp.value as real) < s.store.now || CleanedAfter(t, mid, p.exp.value)
  {
    var t := Step(s, Spend(first));
    RunRow(t, mid, p, (p.exp.value as real) < s.store.now);
  }

  /** Such a run: a request that checked the token in time but spends it after its expiry, when another refresh in
      between has cleaned up. */
  lemma {:induction false} LateSpendSucceeds(s: System, p: Payload, q: Payload, first: nat, other: nat, second: nat, d: nat)
    requires first != second && first != other && other != second
    requires first in s.requests && s.requests[first] == Resolved(p)
    requires second in s.requests && s.requests[second] == Resolved(p)
    requires other in s.requests && s.requests[other] == Resolved(q)
    requires p.jti != q.jti && Revoked(s.store, p).0 && Revoked(s.store, q).0
    requires p.exp.Some? && s.store.now + d as real > p.exp.value as real
    ensures var t := Step(Step(Step(Step(s, Spend(first)), Tick(d)), Spend(other)), Spend(second));
            t.requests[first] == Won(p) && t.requests[second] == Won(p)
  {
    var s1 := Step(s, Spend(first));
    var s2 := Step(s1, Tick(d));
    var s3 := Step(s2, Spend(other));
    assert s2.store.revoked.Keys <= s.store.revoked.Keys + {p.jti};
    assert q.jti !in s2.store.revoked;
    assert p.jti !in s3.store.revoked;
  }

  /** Ended sessions stay ended: an older version is never current again. */
  lemma {:induction false} VersionsOnlyRise(s: System, events: seq<Event>, id: nat)
    requires id in s.store.staff
    ensures id in Run(s, events).store.staff && s.store.staff[id].version <= Run(s, events).store.staff[id].version
    ensures !s.store.staff[id].active ==> !Run(s, events).store.staff[id].active
    decreases |events|
  {
    if events != [] {
      VersionsOnlyRise(s, events[..|events| - 1], id);
    }
  }

  lemma {:induction false} EndedForGood(s: System, events: seq<Event>, p: Payload)
    requires p.staff in s.store.staff && p.tv.Some? && p.tv.value <= s.store.staff[p.staff].version
    ensures StaffFor(Run(Step(s, EndSessions(p.staff)), events).store, p).None?
    ensures StaffFor(Run(Step(s, Disable(p.staff)), events).store, p).None?
  {
    VersionsOnlyRise(Step(s, EndSessions(p.staff)), events, p.staff);
    VersionsOnlyRise(Step(s, Disable(p.staff)), events, p.staff);
  }
}
