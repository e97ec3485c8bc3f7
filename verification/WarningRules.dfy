// What the rules of the warnings mean, in terms of volume, days, hours and the state of the service.
module WarningRules {
  import opened Wrappers
  import opened QuietHours
  import opened Warnings

  /** Microseconds of an hour. */
  const AN_HOUR: int := 60 * 60 * 1_000_000

  /** A volume rule is due once that share of a limited volume is used; a time rule in the last days before the expiry,
      and no longer at it. */
  lemma {:induction false} DueExactly(s: Service, r: Rule, now: int)
    ensures Due(s, r, now) <==>
              match r.kind
              case Data => s.limit > 0 && s.used as real >= s.limit as real * (r.threshold as real / 100.0)
              case Time => s.expires.Some? && now < s.expires.value <= now + r.threshold * (24 * AN_HOUR)
  {
    if r.kind.Data? {
      Share(s.used, s.limit, r.threshold);
    }
  }

  lemma {:induction false} Share(used: nat, limit: nat, threshold: nat)
    ensures used * 100 >= limit * threshold <==> used as real >= limit as real * (threshold as real / 100.0)
  {
    var x := limit as real * threshold as real;
    assert limit as real * (threshold as real / 100.0) == x / 100.0;
    assert (limit * threshold) as real == x;
  }

  /** A service is in the same period as long as it has the same volume and expires in the same hour, or never. */
  lemma {:induction false} SamePeriod(s: Service, t: Service)
    ensures PeriodOf(s) == PeriodOf(t) <==>
              && s.limit == t.limit
              && match (s.expires, t.expires)
                 case (Some(x), Some(y)) => x / AN_HOUR == y / AN_HOUR
                 case (None, None) => true
                 case _ => false
  {
  }

  /** A message is tried on a channel exactly if it is missing there, the warning is at most three days old, its rule is
      not deleted, the service is live, its user is there, it is in the period of the warning and the rule is still due;
      and for bot and email, if it is due by now and not the quiet hours. */
  lemma {:induction false} TriedExactly(w: World, x: Warning, ch: Channel)
    requires WindowOk(w.quiet)
    ensures ch in ToSend(w, x) <==>
              && x.Done(ch).None? && w.now - x.created <= 3 * (24 * AN_HOUR)
              && x.rule < |w.rules| && !w.rules[x.rule].deleted
              && x.key.service in w.services
              && (var s := w.services[x.key.service];
                  s.active && !s.userGone && PeriodOf(s) == x.key.period && Due(s, w.rules[x.rule], w.now))
              && (ch.Site? || (x.due <= w.now && !Quiet(w.quiet, w.now)))
  {
    hide Due, PeriodOf, Quiet, QuietUntil;
    QuietUntilIsFirst(w.quiet, w.now);
    var site := if x.site.None? then [Site] else [];
    var bot := if !Held(w, x) && x.bot.None? then [Bot] else [];
    var email := if !Held(w, x) && x.email.None? then [Email] else [];
    assert ch in site + bot + email <==> ch in site || ch in bot || ch in email;
  }

  /** What a delivery leaves of a row: a channel that was done stays as it was; one that is tried, and every one once
      the warning is no longer true, is done now; any other stays missing. Nothing else changes but the moment it is due. */
  lemma {:induction false} LeftExactly(w: World, x: Warning, ch: Channel)
    ensures var y := After(w, x);
            && y.key == x.key && y.rule == x.rule && y.created == x.created
            && y.Done(ch) == if x.Done(ch).Some? then x.Done(ch)
                             else if ch in ToSend(w, x) || (Deliverable(w, x) && !StillTrue(w, x)) then Some(w.now)
                             else None
    ensures After(w, x).due != x.due ==> x.due <= w.now && QuietUntil(w.quiet, w.now) == Some(After(w, x).due)
  {
    hide Deliverable, StillTrue, QuietUntil;
    if Deliverable(w, x) && StillTrue(w, x) {
      var site := if x.site.None? then [Site] else [];
      var bot := if !Held(w, x) && x.bot.None? then [Bot] else [];
      var email := if !Held(w, x) && x.email.None? then [Email] else [];
      assert ch in site + bot + email <==> ch in site || ch in bot || ch in email;
    }
  }

  // ---- which warnings are made ----

  /** Warnings are made of a service that is live and whose user is there. */
  predicate Warned(w: World, service: nat) {
    service in w.services && w.services[service].active && !w.services[service].userGone
  }

  predicate Applies(w: World, service: nat, r: nat)
    requires Warned(w, service)
  {
    r < |w.rules| && w.rules[r].active && !w.rules[r].deleted && Due(w.services[service], w.rules[r], w.now)
  }

  /** A row made now for a rule that applies, under its kind and threshold and the period of the service. */
  predicate MadeFor(w: World, service: nat, x: Warning)
    requires Warned(w, service)
  {
    && Applies(w, service, x.rule) && x.created == w.now && x.due == w.now
    && x.key == Key(service, w.rules[x.rule].kind, w.rules[x.rule].threshold, PeriodOf(w.services[service]))
  }

  predicate AllApply(w: World, service: nat, due: seq<nat>)
    requires Warned(w, service)
  {
    forall i :: 0 <= i < |due| ==> due[i] < |w.rules| && Applies(w, service, due[i])
  }

  lemma {:induction false} NewRows(ws: seq<Warning>, w: World, service: nat, due: seq<nat>, n: nat)
    requires Warned(w, service) && n <= |due| && AllApply(w, service, due)
    ensures var rows := Created(ws, w, service, w.services[service], due, n);
            ws <= rows && forall i :: |ws| <= i < |rows| ==> MadeFor(w, service, rows[i])
    decreases n
  {
    hide Recorded, PeriodOf, Due;
    if n > 0 {
      NewRows(ws, w, service, due, n - 1);
    }
  }

  /** The rules of a kind that are due come most urgent first. */
  ghost predicate InOrder(w: World, due: seq<nat>, kind: Kind) {
    && (forall i :: 0 <= i < |due| ==> due[i] < |w.rules| && w.rules[due[i]].kind == kind)
    && (forall i, j :: 0 <= i < j < |due| ==> !Stronger(w.rules[due[j]], w.rules[due[i]]))
  }

  lemma {:induction false} ConsInOrder(w: World, r: nat, rest: seq<nat>, kind: Kind)
    requires InOrder(w, rest, kind) && r < |w.rules| && w.rules[r].kind == kind
    requires forall x :: x in rest ==> x < |w.rules| && !Stronger(w.rules[x], w.rules[r])
    ensures InOrder(w, [r] + rest, kind)
  {
    hide Stronger;
  }

  lemma {:induction false} InsertInOrder(w: World, r: nat, due: seq<nat>, kind: Kind)
    requires InOrder(w, due, kind) && r < |w.rules| && w.rules[r].kind == kind
    ensures InOrder(w, Insert(w, r, due), kind)
    decreases |due|
  {
    if due == [] {
      NoneInOrder(w, kind);
      ConsInOrder(w, r, [], kind);
      assert [r] + [] == [r];
    } else if Stronger(w.rules[due[0]], w.rules[r]) {
      var rest := due[1..];
      assert due == [due[0]] + rest;
      InsertInOrder(w, r, rest, kind);
      forall x | x in Insert(w, r, rest) ensures !Stronger(w.rules[x], w.rules[due[0]]) {
        if x in rest {
          var j :| 0 <= j < |rest| && rest[j] == x;
          assert due[j + 1] == x;
        }
      }
      ConsInOrder(w, due[0], Insert(w, r, rest), kind);
    } else {
      forall x | x in due ensures !Stronger(w.rules[x], w.rules[r]) {
        var j :| 0 <= j < |due| && due[j] == x;
        assert j > 0 ==> !Stronger(w.rules[due[j]], w.rules[due[0]]);
      }
      ConsInOrder(w, r, due, kind);
    }
  }

  lemma {:induction false} DueInOrder(w: World, s: Service, kind: Kind, n: nat)
    requires n <= |w.rules|
    ensures InOrder(w, DueRules(w, s, kind, n), kind)
    decreases n
  {
    hide Insert, Due, InOrder;
    if n == 0 {
      NoneInOrder(w, kind);
    } else {
      DueInOrder(w, s, kind, n - 1);
      if DueRule(w, s, kind, n - 1) {
        InsertInOrder(w, n - 1, DueRules(w, s, kind, n - 1), kind);
      }
    }
  }

  lemma {:induction false} NoneInOrder(w: World, kind: Kind)
    ensures InOrder(w, [], kind)
  {
  }

  lemma {:induction false} DueApply(w: World, service: nat, kind: Kind)
    requires Warned(w, service)
    ensures var due := DueRules(w, w.services[service], kind, |w.rules|);
            AllApply(w, service, due)
  {
    hide Due, DueRules;
    var due := DueRules(w, w.services[service], kind, |w.rules|);
    forall i | 0 <= i < |due| ensures Applies(w, service, due[i]) { assert due[i] in due; }
  }

  /** Looking at a service makes a row for each rule that applies and has none for the period yet, and no other row. */
  lemma {:induction false} MadeExactly(ws: seq<Warning>, w: World, service: nat)
    ensures !Warned(w, service) ==> CreatedFor(ws, w, service) == ws
    ensures Warned(w, service) ==>
              var rows := CreatedFor(ws, w, service);
              && ws <= rows
              && (forall i :: |ws| <= i < |rows| ==> MadeFor(w, service, rows[i]))
              && (forall r: nat :: Applies(w, service, r) ==>
                    Recorded(rows, Key(service, w.rules[r].kind, w.rules[r].threshold, PeriodOf(w.services[service]))))
  {
    hide Due, Created, Recorded, PeriodOf, AllApply, DueRules;
    if Warned(w, service) {
      var s := w.services[service];
      var data, time := DueRules(w, s, Data, |w.rules|), DueRules(w, s, Time, |w.rules|);
      var ws1 := Created(ws, w, service, s, data, |data|);
      DueApply(w, service, Data);
      DueApply(w, service, Time);
      NewRows(ws, w, service, data, |data|);
      NewRows(ws1, w, service, time, |time|);
      forall r: nat | Applies(w, service, r)
        ensures Recorded(CreatedFor(ws, w, service), Key(service, w.rules[r].kind, w.rules[r].threshold, PeriodOf(s)))
      {
        OnlyMostUrgent(ws, w, service, w.rules[r].kind, r);
      }
    }
  }

  /** Of the rules of a kind that apply, the one sent has the highest share of volume or the fewest days. */
  lemma {:induction false} SentIsMostUrgent(ws: seq<Warning>, w: World, service: nat, r: nat, i: nat)
    requires Warned(w, service) && Applies(w, service, r)
    requires |ws| <= i < |CreatedFor(ws, w, service)| && CreatedFor(ws, w, service)[i].Pending()
    ensures var x := CreatedFor(ws, w, service)[i];
            && x.rule < |w.rules|
            && (w.rules[x.rule].kind == w.rules[r].kind ==>
                  if w.rules[r].kind.Data? then w.rules[x.rule].threshold >= w.rules[r].threshold
                  else w.rules[x.rule].threshold <= w.rules[r].threshold)
  {
    hide CreatedFor, Due;
    OnlyMostUrgent(ws, w, service, w.rules[r].kind, r);
  }
}
