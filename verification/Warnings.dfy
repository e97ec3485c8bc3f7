// Warnings before a service ends: created once a period, delivered once a channel, never at night.
module Warnings {
  import opened Wrappers
  import opened QuietHours

  const HOUR: int := 3_600_000_000

  datatype Kind = Data | Time

  datatype Rule = Rule(kind: Kind, threshold: nat, active: bool, deleted: bool)

  datatype Service = Service(active: bool, userGone: bool, limit: nat, used: nat, expires: Option<int>)

  /** Changes when the service is renewed or topped up: the hour of the expiry and the volume. */
  datatype Period = Period(hour: Option<int>, limit: nat)

  datatype Key = Key(service: nat, kind: Kind, threshold: nat, period: Period)

  datatype Channel = Site | Bot | Email

  /** A warning; a channel is done once it has a time, whether the message went out, failed or was skipped. */
  datatype Warning = Warning(key: Key, rule: nat, created: int, due: int, site: Option<int>, bot: Option<int>, email: Option<int>)
  {
    function Done(ch: Channel): Option<int> {
      match ch case Site => site case Bot => bot case Email => email
    }

    predicate Pending() { site.None? || bot.None? || email.None? }
  }

  /** One message put on a channel. */
  datatype Attempt = Attempt(key: Key, channel: Channel, at: int)

  /** What one run of the job finds: the time, the quiet hours, the rules, and the services as they are now. */
  datatype World = World(now: int, quiet: Window, rules: seq<Rule>, services: map<nat, Service>)

  function PeriodOf(s: Service): Period {
    Period(match s.expires case Some(e) => Some(e / HOUR) case None => None, s.limit)
  }

  predicate Due(s: Service, r: Rule, now: int) {
    match r.kind
    case Data => s.limit != 0 && s.used * 100 >= s.limit * r.threshold
    case Time => s.expires.Some? && s.expires.value > now && s.expires.value - now <= r.threshold * DAY
  }

  // ---- creation ----

  /** a is more urgent than b: more used, or fewer days left. */
  predicate Stronger(a: Rule, b: Rule) {
    if a.kind.Data? then a.threshold > b.threshold else a.threshold < b.threshold
  }

  predicate DueRule(w: World, s: Service, kind: Kind, r: nat) {
    r < |w.rules| && w.rules[r].active && !w.rules[r].deleted && w.rules[r].kind == kind && Due(s, w.rules[r], w.now)
  }

  function Insert(w: World, r: nat, due: seq<nat>): (out: seq<nat>)
    requires r < |w.rules| && forall i :: 0 <= i < |due| ==> due[i] < |w.rules|
    ensures forall x: nat :: x in out <==> x == r || x in due
    ensures forall i :: 0 <= i < |out| ==> out[i] < |w.rules|
  {
    if due == [] then [r]
    else if Stronger(w.rules[due[0]], w.rules[r]) then [due[0]] + Insert(w, r, due[1..])
    else [r] + due
  }

  /** The due rules of a kind among the first n, most urgent first. */
  function DueRules(w: World, s: Service, kind: Kind, n: nat): (due: seq<nat>)
    requires n <= |w.rules|
    ensures forall r: nat :: r in due <==> r < n && DueRule(w, s, kind, r)
    ensures forall i :: 0 <= i < |due| ==> due[i] < |w.rules|
  {
    if n == 0 then []
    else if DueRule(w, s, kind, n - 1) then Insert(w, n - 1, DueRules(w, s, kind, n - 1))
    else DueRules(w, s, kind, n - 1)
  }

  predicate Recorded(ws: seq<Warning>, key: Key) {
    exists i :: 0 <= i < |ws| && ws[i].key == key
  }

  function KeyOf(w: World, service: nat, s: Service, r: nat): Key
    requires r < |w.rules|
  {
    Key(service, w.rules[r].kind, w.rules[r].threshold, PeriodOf(s))
  }

  /** A new warning: open for the most urgent rule, done on every channel for a weaker one. */
  function NewWarning(w: World, service: nat, s: Service, r: nat, top: bool): Warning
    requires r < |w.rules|
  {
    var skipped := if top then None else Some(w.now);
    Warning(KeyOf(w, service, s, r), r, w.now, w.now, skipped, skipped, skipped)
  }

  /** The rows after creating the first n of the due rules; one already recorded is not created again. */
  function Created(ws: seq<Warning>, w: World, service: nat, s: Service, due: seq<nat>, n: nat): seq<Warning>
    requires n <= |due| && forall i :: 0 <= i < |due| ==> due[i] < |w.rules|
  {
    if n == 0 then ws
    else
      var before := Created(ws, w, service, s, due, n - 1);
      if Recorded(before, KeyOf(w, service, s, due[n - 1])) then before
      else before + [NewWarning(w, service, s, due[n - 1], n == 1)]
  }

  function CreatedFor(ws: seq<Warning>, w: World, service: nat): seq<Warning> {
    if service !in w.services || !w.services[service].active || w.services[service].userGone then ws
    else
      var s := w.services[service];
      var data, time := DueRules(w, s, Data, |w.rules|), DueRules(w, s, Time, |w.rules|);
      var ws1 := Created(ws, w, service, s, data, |data|);
      Created(ws1, w, service, s, time, |time|)
  }

  function CreatedAll(ws: seq<Warning>, w: World, services: seq<nat>): seq<Warning> {
    if services == [] then ws
    else CreatedFor(CreatedAll(ws, w, services[..|services| - 1]), w, services[|services| - 1])
  }

  // ---- delivery ----

  /** Made in the last three days, with a channel to go, for a rule that still exists and a user who is still there. */
  predicate Deliverable(w: World, x: Warning) {
    && x.created >= w.now - 3 * DAY && x.Pending()
    && x.rule < |w.rules| && !w.rules[x.rule].deleted
    && x.key.service in w.services && !w.services[x.key.service].userGone
  }

  /** The service is as it was when the warning was made: live, in the same period, and still due. */
  predicate StillTrue(w: World, x: Warning)
    requires Deliverable(w, x)
  {
    var s := w.services[x.key.service];
    s.active && PeriodOf(s) == x.key.period && Due(s, w.rules[x.rule], w.now)
  }

  predicate Held(w: World, x: Warning) { QuietUntil(w.quiet, w.now).Some? || x.due > w.now }

  /** The channels to try now. */
  function ToSend(w: World, x: Warning): seq<Channel> {
    if !Deliverable(w, x) || !StillTrue(w, x) then []
    else
      (if x.site.None? then [Site] else []) +
      (if !Held(w, x) && x.bot.None? then [Bot] else []) +
      (if !Held(w, x) && x.email.None? then [Email] else [])
  }

  function After(w: World, x: Warning): Warning {
    if !Deliverable(w, x) then x
    else if !StillTrue(w, x) then
      x.(site := if x.site.None? then Some(w.now) else x.site,
         bot := if x.bot.None? then Some(w.now) else x.bot,
         email := if x.email.None? then Some(w.now) else x.email)
    else
      var held := Held(w, x);
      x.(site := if x.site.None? then Some(w.now) else x.site,
         bot := if !held && x.bot.None? then Some(w.now) else x.bot,
         email := if !held && x.email.None? then Some(w.now) else x.email,
         due := if QuietUntil(w.quiet, w.now).Some? && x.due <= w.now then QuietUntil(w.quiet, w.now).value else x.due)
  }

  function Attempts(x: Warning, chs: seq<Channel>, at: int): seq<Attempt> {
    seq(|chs|, i requires 0 <= i < |chs| => Attempt(x.key, chs[i], at))
  }

  /** The rows and messages after the first n rows are dealt with. */
  function Delivered(ws: seq<Warning>, w: World, n: nat): (seq<Warning>, seq<Attempt>)
    requires n <= |ws|
  {
    if n == 0 then ([], [])
    else
      var (rows, sent) := Delivered(ws, w, n - 1);
      (rows + [After(w, ws[n - 1])], sent + Attempts(ws[n - 1], ToSend(w, ws[n - 1]), w.now))
  }

  /** The rows, and every message so far. */
  datatype State = State(warnings: seq<Warning>, log: seq<Attempt>)

  /** One run of the job over the services. */
  function RunOnce(s: State, w: World, services: seq<nat>): State {
    var created := CreatedAll(s.warnings, w, services);
    var (rows, sent) := Delivered(created, w, |created|);
    State(rows, s.log + sent)
  }

  datatype Run = Run(world: World, services: seq<nat>)

  function Runs(s: State, runs: seq<Run>): State {
    if runs == [] then s
    else RunOnce(Runs(s, runs[..|runs| - 1]), runs[|runs| - 1].world, runs[|runs| - 1].services)
  }

  // ---- once a period, once a channel ----

  ghost predicate UniqueKeys(ws: seq<Warning>) {
    forall i, j :: 0 <= i < j < |ws| ==> ws[i].key != ws[j].key
  }

  ghost predicate OnceEach(log: seq<Attempt>) {
    forall i, j :: 0 <= i < j < |log| ==> !(log[i].key == log[j].key && log[i].channel == log[j].channel)
  }

  ghost predicate Marks(ws: seq<Warning>, a: Attempt) {
    exists i :: 0 <= i < |ws| && ws[i].key == a.key && ws[i].Done(a.channel).Some?
  }

  ghost predicate Inv(s: State) {
    && UniqueKeys(s.warnings) && OnceEach(s.log)
    && forall k :: 0 <= k < |s.log| ==> Marks(s.warnings, s.log[k])
  }

  lemma {:induction false} CreatedKeeps(ws: seq<Warning>, w: World, service: nat, s: Service, due: seq<nat>, n: nat)
    requires UniqueKeys(ws) && n <= |due| && forall i :: 0 <= i < |due| ==> due[i] < |w.rules|
    ensures UniqueKeys(Created(ws, w, service, s, due, n)) && ws <= Created(ws, w, service, s, due, n)
    decreases n
  {
    if n > 0 {
      CreatedKeeps(ws, w, service, s, due, n - 1);
    }
  }

  lemma {:induction false} CreatedForKeeps(ws: seq<Warning>, w: World, service: nat)
    requires UniqueKeys(ws)
    ensures UniqueKeys(CreatedFor(ws, w, service)) && ws <= CreatedFor(ws, w, service)
  {
    hide UniqueKeys, DueRules, Created;
    if service in w.services && w.services[service].active && !w.services[service].userGone {
      var s := w.services[service];
      var data, time := DueRules(w, s, Data, |w.rules|), DueRules(w, s, Time, |w.rules|);
      CreatedKeeps(ws, w, service, s, data, |data|);
      CreatedKeeps(Created(ws, w, service, s, data, |data|), w, service, s, time, |time|);
    }
  }

  lemma {:induction false} CreatedAllKeeps(ws: seq<Warning>, w: World, services: seq<nat>)
    requires UniqueKeys(ws)
    ensures UniqueKeys(CreatedAll(ws, w, services)) && ws <= CreatedAll(ws, w, services)
    decreases |services|
  {
    hide UniqueKeys, CreatedFor;
    if services != [] {
      CreatedAllKeeps(ws, w, services[..|services| - 1]);
      CreatedForKeeps(CreatedAll(ws, w, services[..|services| - 1]), w, services[|services| - 1]);
    }
  }

  /** A channel tried now was open before and is done after; and none is tried twice. */
  lemma {:induction false} SentIsMarked(w: World, x: Warning, ch: Channel)
    requires ch in ToSend(w, x)
    ensures x.Done(ch).None? && After(w, x).Done(ch).Some?
  {
  }

  lemma {:induction false} EachTriedOnce(w: World, x: Warning)
    ensures forall i, j :: 0 <= i < j < |ToSend(w, x)| ==> ToSend(w, x)[i] != ToSend(w, x)[j]
  {
  }

  lemma {:induction false} DoneStays(w: World, x: Warning)
    ensures After(w, x).key == x.key && forall ch :: x.Done(ch).Some? ==> After(w, x).Done(ch).Some?
  {
  }

  /** Message k is about the row from[k], on a channel tried for it. */
  ghost predicate SentFrom(ws: seq<Warning>, w: World, a: Attempt, i: nat) {
    i < |ws| && a.key == ws[i].key && a.channel in ToSend(w, ws[i]) && a.at == w.now
  }

  ghost predicate SentFromSome(ws: seq<Warning>, w: World, a: Attempt, n: nat) {
    exists i: nat :: i < n && SentFrom(ws, w, a, i)
  }

  lemma {:induction false} DeliveredRows(ws: seq<Warning>, w: World, n: nat)
    requires n <= |ws|
    ensures |Delivered(ws, w, n).0| == n && forall i :: 0 <= i < n ==> Delivered(ws, w, n).0[i] == After(w, ws[i])
    decreases n
  {
    hide After, ToSend;
    if n > 0 {
      DeliveredRows(ws, w, n - 1);
    }
  }

  lemma {:induction false} DeliveredLog(ws: seq<Warning>, w: World, n: nat)
    requires n <= |ws| && UniqueKeys(ws)
    ensures forall k :: 0 <= k < |Delivered(ws, w, n).1| ==> SentFromSome(ws, w, Delivered(ws, w, n).1[k], n)
    ensures OnceEach(Delivered(ws, w, n).1)
    decreases n
  {
    hide After, ToSend;
    if n > 0 {
      DeliveredLog(ws, w, n - 1);
      var before, more := Delivered(ws, w, n - 1).1, Attempts(ws[n - 1], ToSend(w, ws[n - 1]), w.now);
      var now := Delivered(ws, w, n).1;
      assert now == before + more;
      forall k | 0 <= k < |now| ensures SentFromSome(ws, w, now[k], n) {
        if k < |before| {
          assert SentFromSome(ws, w, before[k], n - 1);
          var i: nat :| i < n - 1 && SentFrom(ws, w, before[k], i);
          assert SentFrom(ws, w, now[k], i);
        } else {
          assert now[k] == more[k - |before|];
          assert SentFrom(ws, w, now[k], n - 1);
        }
      }
      forall j, k | 0 <= j < k < |now| ensures !(now[j].key == now[k].key && now[j].channel == now[k].channel) {
        if j >= |before| {
          EachTriedOnce(w, ws[n - 1]);
        } else if k >= |before| {
          assert SentFromSome(ws, w, before[j], n - 1);
          var i: nat :| i < n - 1 && SentFrom(ws, w, before[j], i);
        }
      }
    }
  }

  /** What one run adds to the log: each message for a row of the table, on a channel tried for it. */
  lemma {:induction false} RunLog(s: State, w: World, services: seq<nat>)
    requires UniqueKeys(s.warnings)
    ensures var created := CreatedAll(s.warnings, w, services);
            var r := RunOnce(s, w, services);
            && UniqueKeys(created) && s.warnings <= created
            && |r.warnings| == |created| && s.log <= r.log
            && (forall i :: 0 <= i < |created| ==> r.warnings[i] == After(w, created[i]))
            && (forall k :: |s.log| <= k < |r.log| ==> SentFromSome(created, w, r.log[k], |created|))
            && OnceEach(r.log[|s.log|..])
  {
    hide After, ToSend, UniqueKeys, CreatedAll, Delivered;
    CreatedAllKeeps(s.warnings, w, services);
    var created := CreatedAll(s.warnings, w, services);
    DeliveredRows(created, w, |created|);
    DeliveredLog(created, w, |created|);
    var sent := Delivered(created, w, |created|).1;
    var r := RunOnce(s, w, services);
    assert r.log[|s.log|..] == sent;
    forall k | |s.log| <= k < |r.log| ensures SentFromSome(created, w, r.log[k], |created|) {
      assert SentFromSome(created, w, sent[k - |s.log|], |created|);
    }
  }

  lemma {:induction false} RunKeeps(s: State, w: World, services: seq<nat>)
    requires Inv(s)
    ensures Inv(RunOnce(s, w, services))
  {
    hide After, ToSend, CreatedAll, Delivered, RunOnce;
    RunLog(s, w, services);
    var created, r := CreatedAll(s.warnings, w, services), RunOnce(s, w, services);
    forall i | 0 <= i < |created|
      ensures r.warnings[i].key == created[i].key
           && forall ch :: created[i].Done(ch).Some? ==> r.warnings[i].Done(ch).Some?
    {
      DoneStays(w, created[i]);
    }
    forall k | 0 <= k < |r.log| ensures Marks(r.warnings, r.log[k]) {
      if k < |s.log| {
        var i :| 0 <= i < |s.warnings| && s.warnings[i].key == r.log[k].key && s.warnings[i].Done(r.log[k].channel).Some?;
        assert r.warnings[i].key == r.log[k].key;
      } else {
        assert SentFromSome(created, w, r.log[k], |created|);
        var i: nat :| i < |created| && SentFrom(created, w, r.log[k], i);
        SentIsMarked(w, created[i], r.log[k].channel);
      }
    }
    forall j, k | 0 <= j < k < |r.log|
      ensures !(r.log[j].key == r.log[k].key && r.log[j].channel == r.log[k].channel)
    {
      if j >= |s.log| {
        assert r.log[|s.log|..][j - |s.log|] == r.log[j] && r.log[|s.log|..][k - |s.log|] == r.log[k];
      } else if k >= |s.log| {
        NotAgain(s, w, created, r.log[j], r.log[k]);
      }
    }
  }

  /** A channel already tried is not tried now. */
  lemma {:induction false} NotAgain(s: State, w: World, created: seq<Warning>, a: Attempt, b: Attempt)
    requires UniqueKeys(created) && s.warnings <= created && Marks(s.warnings, a)
    requires SentFromSome(created, w, b, |created|)
    ensures !(a.key == b.key && a.channel == b.channel)
  {
    hide After, ToSend;
    var i :| 0 <= i < |s.warnings| && s.warnings[i].key == a.key && s.warnings[i].Done(a.channel).Some?;
    assert created[i] == s.warnings[i];
    var l: nat :| l < |created| && SentFrom(created, w, b, l);
    SentIsMarked(w, created[l], b.channel);
  }

  /** Over any runs, in any worlds: one warning for a service, kind, threshold and period, and at most one message on
      each channel of it. */
  lemma {:induction false} OncePerChannel(s: State, runs: seq<Run>)
    requires Inv(s)
    ensures Inv(Runs(s, runs))
    decreases |runs|
  {
    hide Inv, RunOnce;
    if runs != [] {
      OncePerChannel(s, runs[..|runs| - 1]);
      RunKeeps(Runs(s, runs[..|runs| - 1]), runs[|runs| - 1].world, runs[|runs| - 1].services);
    }
  }

  // ---- never at night, never stale ----

  /** The message goes to a live service in the period it was made for; bot and email only outside the quiet hours. */
  ghost predicate Timely(w: World, a: Attempt) {
    && a.at == w.now
    && a.key.service in w.services && w.services[a.key.service].active && !w.services[a.key.service].userGone
    && PeriodOf(w.services[a.key.service]) == a.key.period
    && (a.channel != Site ==> !Quiet(w.quiet, a.at))
  }

  lemma {:induction false} RunIsTimely(s: State, w: World, services: seq<nat>, k: nat)
    requires UniqueKeys(s.warnings) && WindowOk(w.quiet) && |s.log| <= k < |RunOnce(s, w, services).log|
    ensures s.log <= RunOnce(s, w, services).log && Timely(w, RunOnce(s, w, services).log[k])
  {
    hide CreatedAll, RunOnce, Quiet, QuietUntil, After, StillTrue;
    RunLog(s, w, services);
    var created, a := CreatedAll(s.warnings, w, services), RunOnce(s, w, services).log[k];
    var i: nat :| i < |created| && SentFrom(created, w, a, i);
    QuietUntilIsFirst(w.quiet, w.now);
    TriedIsDue(w, created[i], a.channel);
  }

  /** A channel is tried only for a warning made in the last three days that is still true, and bot and email only
      once it is due and the night is over. */
  lemma {:induction false} TriedIsDue(w: World, x: Warning, ch: Channel)
    requires ch in ToSend(w, x)
    ensures Deliverable(w, x) && x.created >= w.now - 3 * DAY
    ensures w.services[x.key.service].active && PeriodOf(w.services[x.key.service]) == x.key.period
    ensures ch != Site ==> x.due <= w.now && QuietUntil(w.quiet, w.now).None?
  {
  }

  /** What the quiet hours hold back waits for their end and not a moment longer: bot and email are held from now
      until just before it, and at it they are not. */
  lemma {:induction false} HeldUntilMorning(w: World, x: Warning, later: World)
    requires WindowOk(w.quiet) && Deliverable(w, x) && StillTrue(w, x) && x.due <= w.now && Quiet(w.quiet, w.now)
    requires later.quiet == w.quiet && w.now <= later.now
    ensures var until := QuietUntil(w.quiet, w.now).value;
            && Held(w, x) && After(w, x).due == until
            && (later.now < until ==> Held(later, After(w, x)))
            && (later.now == until ==> !Held(later, After(w, x)))
  {
    QuietUntilIsFirst(w.quiet, w.now);
    QuietUntilIsFirst(w.quiet, later.now);
  }

  /** A run tries exactly the missing channels of a warning that is still true and not held, and leaves none missing. */
  lemma {:induction false} MissingChannelsTried(s: State, w: World, services: seq<nat>, i: nat)
    requires UniqueKeys(s.warnings) && i < |CreatedAll(s.warnings, w, services)|
    requires var x := CreatedAll(s.warnings, w, services)[i]; Deliverable(w, x) && StillTrue(w, x) && !Held(w, x)
    ensures var x, r := CreatedAll(s.warnings, w, services)[i], RunOnce(s, w, services);
            && i < |r.warnings| && r.warnings[i].key == x.key && !r.warnings[i].Pending()
            && forall ch :: x.Done(ch).None? <==> ch in ToSend(w, x)
  {
    hide CreatedAll, RunOnce, Deliverable, StillTrue, Held;
    RunLog(s, w, services);
    AllMarked(w, CreatedAll(s.warnings, w, services)[i]);
  }

  lemma {:induction false} AllMarked(w: World, x: Warning)
    requires Deliverable(w, x) && StillTrue(w, x) && !Held(w, x)
    ensures After(w, x).key == x.key && !After(w, x).Pending()
    ensures forall ch :: x.Done(ch).None? <==> ch in ToSend(w, x)
  {
    hide Deliverable, StillTrue, Held;
    var sent := ToSend(w, x);
    assert x.site.None? ==> sent[0] == Site;
    forall ch ensures x.Done(ch).None? <==> ch in sent {
      match ch
      case Site =>
      case Bot => assert x.bot.None? ==> Bot in (if !Held(w, x) && x.bot.None? then [Bot] else []);
      case Email => assert x.email.None? ==> Email in (if !Held(w, x) && x.email.None? then [Email] else []);
    }
  }

  ghost predicate TimelyInSome(runs: seq<Run>, a: Attempt) {
    exists j :: 0 <= j < |runs| && Timely(runs[j].world, a)
  }

  /** Every message of any runs was timely in the run that sent it. */
  lemma {:induction false} AlwaysTimely(s: State, runs: seq<Run>)
    requires Inv(s) && forall j :: 0 <= j < |runs| ==> WindowOk(runs[j].world.quiet)
    ensures s.log <= Runs(s, runs).log
    ensures forall k :: |s.log| <= k < |Runs(s, runs).log| ==> TimelyInSome(runs, Runs(s, runs).log[k])
    decreases |runs|
  {
    hide Inv, RunOnce, Timely, WindowOk;
    if runs != [] {
      var before, last := runs[..|runs| - 1], runs[|runs| - 1];
      AlwaysTimely(s, before);
      OncePerChannel(s, before);
      var m, r := Runs(s, before), Runs(s, runs);
      InvUnique(m);
      RunLog(m, last.world, last.services);
      forall k | |s.log| <= k < |r.log| ensures TimelyInSome(runs, r.log[k]) {
        if k < |m.log| {
          assert TimelyInSome(before, m.log[k]) && r.log[k] == m.log[k];
          var j :| 0 <= j < |before| && Timely(before[j].world, r.log[k]);
          assert Timely(runs[j].world, r.log[k]);
        } else {
          RunIsTimely(m, last.world, last.services, k);
          assert Timely(runs[|runs| - 1].world, r.log[k]);
        }
      }
    }
  }

  lemma {:induction false} InvUnique(s: State)
    requires Inv(s)
    ensures UniqueKeys(s.warnings)
  {
  }

  // ---- only the most urgent one speaks ----

  ghost predicate Strongest(w: World, kind: Kind, due: seq<nat>) {
    forall r: nat :: r in due ==>
      r < |w.rules| && w.rules[r].kind == kind && due[0] < |w.rules| && !Stronger(w.rules[r], w.rules[due[0]])
  }

  lemma {:induction false} InsertStrongest(w: World, kind: Kind, r: nat, due: seq<nat>)
    requires r < |w.rules| && w.rules[r].kind == kind && Strongest(w, kind, due)
    requires forall i :: 0 <= i < |due| ==> due[i] < |w.rules|
    ensures Strongest(w, kind, Insert(w, r, due))
  {
    assert due != [] ==> due[0] in due;
  }

  lemma {:induction false} FirstIsStrongest(w: World, s: Service, kind: Kind, n: nat)
    requires n <= |w.rules|
    ensures Strongest(w, kind, DueRules(w, s, kind, n))
    decreases n
  {
    hide Insert, Due, Strongest;
    if n > 0 {
      FirstIsStrongest(w, s, kind, n - 1);
      if DueRule(w, s, kind, n - 1) {
        InsertStrongest(w, kind, n - 1, DueRules(w, s, kind, n - 1));
      }
    } else {
      NoneStrongest(w, kind);
    }
  }

  lemma {:induction false} NoneStrongest(w: World, kind: Kind)
    ensures Strongest(w, kind, [])
  {
  }

  lemma {:induction false} CreatedRows(ws: seq<Warning>, w: World, service: nat, s: Service, due: seq<nat>, n: nat)
    requires n <= |due| && forall i :: 0 <= i < |due| ==> due[i] < |w.rules|
    ensures var rows := Created(ws, w, service, s, due, n);
            && ws <= rows
            && (forall i :: |ws| <= i < |rows| && rows[i].Pending() ==> due != [] && rows[i].rule == due[0])
            && (forall m :: 0 <= m < n ==> Recorded(rows, KeyOf(w, service, s, due[m])))
    decreases n
  {
    if n > 0 {
      CreatedRows(ws, w, service, s, due, n - 1);
      var before, rows := Created(ws, w, service, s, due, n - 1), Created(ws, w, service, s, due, n);
      forall m | 0 <= m < n ensures Recorded(rows, KeyOf(w, service, s, due[m])) {
        if m < n - 1 {
          assert Recorded(before, KeyOf(w, service, s, due[m]));
          RecordedStays(before, rows, KeyOf(w, service, s, due[m]));
        } else if !Recorded(before, KeyOf(w, service, s, due[m])) {
          assert rows[|rows| - 1].key == KeyOf(w, service, s, due[m]);
        }
      }
    }
  }

  lemma {:induction false} RecordedStays(before: seq<Warning>, rows: seq<Warning>, key: Key)
    requires before <= rows && Recorded(before, key)
    ensures Recorded(rows, key)
  {
    var i :| 0 <= i < |before| && before[i].key == key;
    assert rows[i].key == key;
  }

  /** After a service is looked at, every due rule is on record for the period; and a new warning still to be sent is
      for a due rule than which no due rule of its kind is more urgent. */
  lemma {:induction false} OnlyMostUrgent(ws: seq<Warning>, w: World, service: nat, kind: Kind, r: nat)
    requires service in w.services && w.services[service].active && !w.services[service].userGone
    requires DueRule(w, w.services[service], kind, r)
    ensures Recorded(CreatedFor(ws, w, service), KeyOf(w, service, w.services[service], r))
    ensures ws <= CreatedFor(ws, w, service)
    ensures forall i :: |ws| <= i < |CreatedFor(ws, w, service)| ==>
              var x := CreatedFor(ws, w, service)[i];
              x.Pending() ==>
                x.rule < |w.rules| && DueRule(w, w.services[service], w.rules[x.rule].kind, x.rule)
                && (w.rules[x.rule].kind == kind ==> !Stronger(w.rules[r], w.rules[x.rule]))
  {
    hide Created, KeyOf, Recorded;
    var s := w.services[service];
    var data, time := DueRules(w, s, Data, |w.rules|), DueRules(w, s, Time, |w.rules|);
    var ws1 := Created(ws, w, service, s, data, |data|);
    FirstIsStrongest(w, s, Data, |w.rules|);
    FirstIsStrongest(w, s, Time, |w.rules|);
    CreatedRows(ws, w, service, s, data, |data|);
    CreatedRows(ws1, w, service, s, time, |time|);
    var all := CreatedFor(ws, w, service);
    assert all == Created(ws1, w, service, s, time, |time|);
    if kind.Data? {
      var m :| 0 <= m < |data| && data[m] == r;
      RecordedStays(ws1, all, KeyOf(w, service, s, data[m]));
    } else {
      var m :| 0 <= m < |time| && time[m] == r;
    }
    forall i | |ws| <= i < |all| && all[i].Pending()
      ensures all[i].rule < |w.rules| && DueRule(w, s, w.rules[all[i].rule].kind, all[i].rule)
           && (w.rules[all[i].rule].kind == kind ==> !Stronger(w.rules[r], w.rules[all[i].rule]))
    {
      if i < |ws1| {
        assert all[i] == ws1[i] && data[0] in data;
      } else {
        assert time[0] in time;
      }
    }
  }

  // ---- the job ----

  lemma {:induction false} DeliveredNone(ws: seq<Warning>, w: World)
    ensures Delivered(ws, w, 0) == ([], [])
  {
  }

  lemma {:induction false} DeliveredTurn(ws: seq<Warning>, w: World, n: nat)
    requires n < |ws|
    ensures Delivered(ws, w, n + 1).0 == Delivered(ws, w, n).0 + [After(w, ws[n])]
    ensures Delivered(ws, w, n + 1).1 == Delivered(ws, w, n).1 + Attempts(ws[n], ToSend(w, ws[n]), w.now)
  {
    hide After, ToSend, Attempts;
  }

  class Job {
    var warnings: seq<Warning>
    var log: seq<Attempt>

    ghost function Current(): State
      reads this
    {
      State(warnings, log)
    }

    /** The due rules of one kind, the most urgent first; the insert fails for one already recorded. */
    method CreateDue(w: World, service: nat, s: Service, kind: Kind)
      modifies `warnings
      ensures var due := DueRules(w, s, kind, |w.rules|);
              warnings == Created(old(warnings), w, service, s, due, |due|)
    {
      var due := DueRules(w, s, kind, |w.rules|);
      for n := 0 to |due|
        invariant warnings == Created(old(warnings), w, service, s, due, n)
      {
        if Recorded(warnings, KeyOf(w, service, s, due[n])) {
          continue;
        }
        var x := Warning(KeyOf(w, service, s, due[n]), due[n], w.now, w.now, None, None, None);
        if n > 0 {
          x := x.(site := Some(w.now), bot := Some(w.now), email := Some(w.now));
        }
        warnings := warnings + [x];
      }
    }

    /** One warning: its row after, and the channels tried. */
    method DeliverOne(w: World, before: Warning) returns (x: Warning, sent: seq<Channel>)
      ensures x == After(w, before) && sent == ToSend(w, before)
    {
      x, sent := before, [];
      if !Deliverable(w, x) {
        return;
      }
      if !StillTrue(w, x) {
        if x.site.None? { x := x.(site := Some(w.now)); }
        if x.bot.None? { x := x.(bot := Some(w.now)); }
        if x.email.None? { x := x.(email := Some(w.now)); }
        return;
      }
      var quiet := QuietUntil(w.quiet, w.now);
      if x.site.None? {
        sent, x := sent + [Site], x.(site := Some(w.now));
      }
      var held := quiet.Some? || x.due > w.now;
      if !held && x.bot.None? {
        sent, x := sent + [Bot], x.(bot := Some(w.now));
      }
      if !held && x.email.None? {
        sent, x := sent + [Email], x.(email := Some(w.now));
      }
      if held && x.due <= w.now && quiet.Some? {
        x := x.(due := quiet.value);
      }
    }

    method DeliverPending(w: World)
      modifies this
      ensures warnings == Delivered(old(warnings), w, |old(warnings)|).0
      ensures log == old(log) + Delivered(old(warnings), w, |old(warnings)|).1
    {
      hide Delivered, After, ToSend, Attempts;
      ghost var ws := warnings;
      DeliveredNone(ws, w);
      for i := 0 to |warnings|
        invariant |warnings| == |ws|
        invariant warnings == Delivered(ws, w, i).0 + ws[i..]
        invariant |Delivered(ws, w, i).0| == i
        invariant log == old(log) + Delivered(ws, w, i).1
      {
        var before := warnings[i];
        assert before == ws[i];
        var x, sent := DeliverOne(w, before);
        DeliveredTurn(ws, w, i);
        warnings := warnings[i := x];
        assert warnings == Delivered(ws, w, i + 1).0 + ws[i + 1..];
        log := log + Attempts(before, sent, w.now);
        assert log == old(log) + Delivered(ws, w, i + 1).1;
      }
    }

    method RunWarnings(w: World, services: seq<nat>)
      modifies this
      ensures Current() == RunOnce(old(Current()), w, services)
    {
      for n := 0 to |services|
        invariant log == old(log)
        invariant warnings == CreatedAll(old(warnings), w, services[..n])
      {
        assert services[..n + 1][..n] == services[..n];
        var service := services[n];
        if service !in w.services || !w.services[service].active || w.services[service].userGone {
          continue;
        }
        CreateDue(w, service, w.services[service], Data);
        CreateDue(w, service, w.services[service], Time);
      }
      assert services[..|services|] == services;
      DeliverPending(w);
    }
  }
}
