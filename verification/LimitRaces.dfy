// Changes of one admin's live limit that overlap: each reads the limit from the panel and puts back another, and
// only some of them lock each other out.
module LimitRaces {
  import opened Basics
  import opened Records
  import opened Pricing
  import Approvals

  /** A manager's volume and its refusal hold the manager lock of the admin; the approval of an admin's own request
      holds the admin's row in the database. */
  datatype Kind = Give | TakeBack | Grant

  type Volume = v: int | v > 0 witness 1

  /** Looked: the limit read, and how many limits had been put by then. */
  datatype Phase = Begun | Looked(value: int, seen: nat) | Put(value: int) | Over

  datatype Job = Job(kind: Kind, volume: Volume, phase: Phase)

  /** The live limit and how many have been put so far, the local copy of it, the two locks, and the jobs. */
  datatype Panel = Panel(live: int, puts: nat, copy: int, locked: bool, rowHeld: bool, jobs: map<nat, Job>)

  datatype Event =
    | Begin(job: nat, kind: Kind, volume: Volume)
    | Look(job: nat)
    | Write(job: nat)
    | Finish(job: nat)
    | LockExpires

  function Start(live: int, copy: int): Panel { Panel(live, 0, copy, false, false, map[]) }

  predicate IsAt(s: Panel, j: nat, looked: bool) {
    j in s.jobs && if looked then s.jobs[j].phase.Looked? else s.jobs[j].phase.Begun?
  }

  /** What a job adds to or takes off the limit it goes by; a refusal leaves one byte at least. */
  function Target(kind: Kind, volume: Volume, value: int, copy: int): int {
    match kind
    case Give => value + volume
    case TakeBack => Max(1, value - volume)
    case Grant => (if value > 0 then value else copy) + volume
  }

  function Move(s: Panel, j: nat, phase: Phase): Panel
    requires j in s.jobs
  {
    s.(jobs := s.jobs[j := s.jobs[j].(phase := phase)])
  }

  /** The job is over and frees its lock: the manager lock whoever has it by now. */
  function Leave(s: Panel, j: nat): Panel
    requires j in s.jobs
  {
    var d := Move(s, j, Over);
    if s.jobs[j].kind.Grant? then d.(rowHeld := false) else d.(locked := false)
  }

  function Step(s: Panel, ev: Event): Panel {
    match ev
    case Begin(j, kind, volume) =>
      if j in s.jobs || (if kind.Grant? then s.rowHeld else s.locked) then s
      else
        var d := s.(jobs := s.jobs[j := Job(kind, volume, Begun)]);
        if kind.Grant? then d.(rowHeld := true) else d.(locked := true)
    case Look(j) =>
      if !IsAt(s, j, false) then s
      else if s.live <= 0 && !s.jobs[j].kind.Grant? then Leave(s, j)
      else Move(s, j, Looked(s.live, s.puts))
    case Write(j) =>
      if !IsAt(s, j, true) then s
      else
        var job := s.jobs[j];
        var bytes := Target(job.kind, job.volume, job.phase.value, s.copy);
        Move(s, j, Put(bytes)).(live := bytes, puts := s.puts + 1)
    case Finish(j) =>
      // the copy is saved under the row lock; a job that has put nothing just ends
      if j !in s.jobs || s.jobs[j].phase.Over? then s
      else if !s.jobs[j].phase.Put? then Leave(s, j)
      else if !s.jobs[j].kind.Grant? && s.rowHeld then s
      else Leave(s, j).(copy := s.jobs[j].phase.value)
    case LockExpires => s.(locked := false)
  }

  function Run(s: Panel, events: seq<Event>): Panel {
    if events == [] then s else Step(Run(s, events[..|events| - 1]), events[|events| - 1])
  }

  lemma {:induction false} RunPush(s: Panel, events: seq<Event>, ev: Event)
    ensures Run(s, events + [ev]) == Step(Run(s, events), ev)
  {
    assert (events + [ev])[..|events|] == events;
  }

  // ---- what is added and what is lost ----

  /** What a write means to change the limit by. */
  function Gain(s: Panel, ev: Event): int {
    if ev.Write? && IsAt(s, ev.job, true) then
      var job := s.jobs[ev.job];
      Target(job.kind, job.volume, job.phase.value, s.copy) - job.phase.value
    else 0
  }

  /** How far the limit has moved away from what the writer read. */
  function Loss(s: Panel, ev: Event): int {
    if ev.Write? && IsAt(s, ev.job, true) then s.live - s.jobs[ev.job].phase.value else 0
  }

  /** Another limit was put between the writer's look and its write. */
  predicate Overtaken(s: Panel, ev: Event) {
    ev.Write? && IsAt(s, ev.job, true) && s.jobs[ev.job].phase.seen != s.puts
  }

  function Gains(s: Panel, events: seq<Event>): int {
    if events == [] then 0
    else
      var before := events[..|events| - 1];
      Gains(s, before) + Gain(Run(s, before), events[|events| - 1])
  }

  function Losses(s: Panel, events: seq<Event>): int {
    if events == [] then 0
    else
      var before := events[..|events| - 1];
      Losses(s, before) + Loss(Run(s, before), events[|events| - 1])
  }

  /** A limit that is finite stays so; and the values read are. */
  predicate Finite(s: Panel) {
    s.live > 0 && forall j :: j in s.jobs && s.jobs[j].phase.Looked? ==> s.jobs[j].phase.value > 0
  }

  /** On a finite limit a write means to add the volume, or to take it off as far as one byte. */
  lemma {:induction false} StepLive(s: Panel, ev: Event)
    requires Finite(s)
    ensures Finite(Step(s, ev))
    ensures Step(s, ev).live == s.live + Gain(s, ev) - Loss(s, ev)
    ensures ev.Write? && IsAt(s, ev.job, true) ==>
              var job := s.jobs[ev.job];
              Gain(s, ev) == if job.kind.TakeBack? then -Min(job.volume, job.phase.value - 1) else job.volume as int
  {
  }

  /** Over every run the live limit is its start and what all the writes meant to change it by, less what they lost. */
  lemma {:induction false} LiveExact(s: Panel, events: seq<Event>)
    requires Finite(s)
    ensures Finite(Run(s, events))
    ensures Run(s, events).live == s.live + Gains(s, events) - Losses(s, events)
  {
    hide Step;
    hide Gain;
    hide Loss;
    if events != [] {
      LiveExact(s, events[..|events| - 1]);
      StepLive(Run(s, events[..|events| - 1]), events[|events| - 1]);
    }
  }

  // ---- right at every point ----

  predicate Right(s: Panel, events: seq<Event>) {
    Run(s, events).live == s.live + Gains(s, events)
  }

  ghost predicate AlwaysRight(s: Panel, events: seq<Event>) {
    forall i :: 0 <= i <= |events| ==> Right(s, events[..i])
  }

  /** Each write finds the limit its writer read. */
  ghost predicate NoneLoses(s: Panel, events: seq<Event>) {
    forall i :: 0 <= i < |events| ==> Loss(Run(s, events[..i]), events[i]) == 0
  }

  lemma {:induction false} PointsPush(s: Panel, before: seq<Event>, ev: Event)
    ensures AlwaysRight(s, before + [ev]) <==> AlwaysRight(s, before) && Right(s, before + [ev])
    ensures NoneLoses(s, before + [ev]) <==> NoneLoses(s, before) && Loss(Run(s, before), ev) == 0
  {
    hide Run;
    hide Right;
    hide Loss;
    var events := before + [ev];
    assert events[..|events|] == events && before[..|before|] == before;
    forall i | 0 <= i <= |before| ensures events[..i] == before[..i] {}
    if AlwaysRight(s, events) {
      assert Right(s, events[..|events|]);
      forall i | 0 <= i <= |before| ensures Right(s, before[..i]) { assert Right(s, events[..i]); }
    }
    if NoneLoses(s, events) {
      assert Loss(Run(s, events[..|before|]), events[|before|]) == 0;
      forall i | 0 <= i < |before| ensures Loss(Run(s, before[..i]), before[i]) == 0 {
        assert Loss(Run(s, events[..i]), events[i]) == 0;
      }
    }
  }

  /** In every run of manager's volume, refusals and approvals, the live limit is right at every point if and only if
      each write finds the limit that its writer read. */
  lemma {:induction false} RightUnlessLost(s: Panel, events: seq<Event>)
    requires Finite(s)
    ensures AlwaysRight(s, events) <==> NoneLoses(s, events)
  {
    hide Step;
    hide Gain;
    hide Loss;
    if events != [] {
      var before, ev := events[..|events| - 1], events[|events| - 1];
      assert events == before + [ev] && before[..|before|] == before;
      RightUnlessLost(s, before);
      LiveExact(s, before);
      StepLive(Run(s, before), ev);
      PointsPush(s, before, ev);
      assert AlwaysRight(s, before) ==> Right(s, before[..|before|]);
    }
  }

  // ---- nothing but rises: right at the end only if no write was overtaken ----

  ghost predicate NoneOvertaken(s: Panel, events: seq<Event>) {
    forall i :: 0 <= i < |events| ==> !Overtaken(Run(s, events[..i]), events[i])
  }

  predicate Rising(s: Panel) {
    forall j :: j in s.jobs ==> !s.jobs[j].kind.TakeBack?
  }

  /** The limit is at most right; a value read is, too, and less once another limit has been put. */
  predicate Behind(s: Panel, right: int) {
    && s.live <= right && Rising(s)
    && forall j :: j in s.jobs && s.jobs[j].phase.Looked? ==>
         var p := s.jobs[j].phase;
         p.seen <= s.puts && (if p.seen == s.puts then p.value == s.live else p.value < right)
  }

  lemma {:induction false} StepBehind(s: Panel, ev: Event, right: int)
    requires Finite(s) && Behind(s, right)
    requires ev.Begin? ==> !ev.kind.TakeBack?
    ensures var d := Step(s, ev);
            && Behind(d, right + Gain(s, ev))
            && (d.live == right + Gain(s, ev) <==> s.live == right && !Overtaken(s, ev))
  {
    if ev.Write? {
      WriteBehind(s, ev.job, right);
    } else {
      ElseBehind(s, ev, right);
    }
  }

  lemma {:induction false} ElseBehind(s: Panel, ev: Event, right: int)
    requires Behind(s, right) && !ev.Write?
    requires ev.Begin? ==> !ev.kind.TakeBack?
    ensures Behind(Step(s, ev), right) && Step(s, ev).live == s.live
  {
  }

  lemma {:induction false} WriteBehind(s: Panel, j: nat, right: int)
    requires Finite(s) && Behind(s, right)
    ensures var ev, d := Write(j), Step(s, Write(j));
            && Behind(d, right + Gain(s, ev))
            && (d.live == right + Gain(s, ev) <==> s.live == right && !Overtaken(s, ev))
  {
  }

  lemma {:induction false} OvertakenPush(s: Panel, before: seq<Event>, ev: Event)
    ensures NoneOvertaken(s, before + [ev]) <==> NoneOvertaken(s, before) && !Overtaken(Run(s, before), ev)
  {
    hide Run;
    hide Overtaken;
    var events := before + [ev];
    assert before[..|before|] == before;
    forall i | 0 <= i <= |before| ensures events[..i] == before[..i] {}
    if NoneOvertaken(s, events) {
      assert !Overtaken(Run(s, events[..|before|]), events[|before|]);
      forall i | 0 <= i < |before| ensures !Overtaken(Run(s, before[..i]), before[i]) {
        assert !Overtaken(Run(s, events[..i]), events[i]);
      }
    }
  }

  lemma {:induction false} NobodyBehind(s: Panel)
    requires s.jobs == map[]
    ensures Behind(s, s.live) && NoneOvertaken(s, [])
  {
  }

  /** In every run of manager's volume and approvals the live limit is never more than the volume written adds up to,
      and it is exactly that if and only if no other write fell between a look and its write. */
  lemma {:induction false} RightUnlessOvertaken(s: Panel, events: seq<Event>)
    requires Finite(s) && s.jobs == map[]
    requires forall i :: 0 <= i < |events| && events[i].Begin? ==> !events[i].kind.TakeBack?
    ensures Behind(Run(s, events), s.live + Gains(s, events))
    ensures Right(s, events) <==> NoneOvertaken(s, events)
  {
    hide Step;
    hide Gain;
    hide Overtaken;
    hide Behind;
    hide Finite;
    hide NoneOvertaken;
    if events == [] {
      NobodyBehind(s);
    } else {
      var before, ev := events[..|events| - 1], events[|events| - 1];
      assert events == before + [ev];
      forall i | 0 <= i < |before| && before[i].Begin? ensures !before[i].kind.TakeBack? { assert before[i] == events[i]; }
      RightUnlessOvertaken(s, before);
      LiveExact(s, before);
      StepBehind(Run(s, before), ev, s.live + Gains(s, before));
      OvertakenPush(s, before, ev);
    }
  }

  // ---- what the locks are for ----

  /** All jobs are on one side of the two, at most one is running, it has the lock, and what it read still holds. */
  ghost predicate OneAtATime(s: Panel, grants: bool) {
    && (forall j :: j in s.jobs ==> s.jobs[j].kind.Grant? == grants)
    && (forall j, k :: j in s.jobs && k in s.jobs && j != k ==> s.jobs[j].phase.Over? || s.jobs[k].phase.Over?)
    && (forall j :: j in s.jobs && !s.jobs[j].phase.Over? ==> if grants then s.rowHeld else s.locked)
    && (forall j :: j in s.jobs && s.jobs[j].phase.Looked? ==> s.jobs[j].phase.value == s.live)
  }

  /** Nobody else is running when a job writes, so its look still holds. */
  lemma {:induction false} WriteAlone(s: Panel, j: nat, grants: bool)
    requires OneAtATime(s, grants)
    ensures OneAtATime(Step(s, Write(j)), grants) && Loss(s, Write(j)) == 0
  {
    hide Target;
  }

  lemma {:induction false} BeginAlone(s: Panel, j: nat, kind: Kind, volume: Volume)
    requires OneAtATime(s, kind.Grant?)
    ensures OneAtATime(Step(s, Begin(j, kind, volume)), kind.Grant?)
  {
  }

  lemma {:induction false} LookAlone(s: Panel, j: nat, grants: bool)
    requires OneAtATime(s, grants)
    ensures OneAtATime(Step(s, Look(j)), grants)
  {
  }

  lemma {:induction false} FinishAlone(s: Panel, j: nat, grants: bool)
    requires OneAtATime(s, grants)
    ensures OneAtATime(Step(s, Finish(j)), grants)
  {
  }

  lemma {:induction false} OneAtATimeStep(s: Panel, ev: Event, grants: bool)
    requires OneAtATime(s, grants)
    requires ev.Begin? ==> ev.kind.Grant? == grants
    requires ev.LockExpires? ==> grants
    ensures OneAtATime(Step(s, ev), grants) && Loss(s, ev) == 0
  {
    match ev
    case Begin(j, kind, volume) => BeginAlone(s, j, kind, volume);
    case Look(j) => LookAlone(s, j, grants);
    case Write(j) => WriteAlone(s, j, grants);
    case Finish(j) => FinishAlone(s, j, grants);
    case LockExpires =>
  }

  /** The manager lock keeps managers' volume and refusals right as long as it does not expire, and the row lock the
      approvals: in a run of one side only, no write is lost. */
  lemma {:induction false} LocksSuffice(s: Panel, events: seq<Event>, grants: bool)
    requires Finite(s) && s.jobs == map[]
    requires forall i :: 0 <= i < |events| && events[i].Begin? ==> events[i].kind.Grant? == grants
    requires grants || forall i :: 0 <= i < |events| ==> !events[i].LockExpires?
    ensures OneAtATime(Run(s, events), grants) && NoneLoses(s, events) && AlwaysRight(s, events)
  {
    hide Step;
    hide Loss;
    hide OneAtATime;
    hide Finite;
    hide AlwaysRight;
    hide NoneLoses;
    RightUnlessLost(s, events);
    if events == [] {
      NobodyRuns(s, grants);
    } else {
      var before, ev := events[..|events| - 1], events[|events| - 1];
      assert events == before + [ev];
      forall i | 0 <= i < |before| ensures before[i] == events[i] {}
      LocksSuffice(s, before, grants);
      OneAtATimeStep(Run(s, before), ev, grants);
      PointsPush(s, before, ev);
    }
  }

  lemma {:induction false} NobodyRuns(s: Panel, grants: bool)
    requires s.jobs == map[]
    ensures OneAtATime(s, grants) && NoneLoses(s, [])
  {
  }

  // ---- runs that lose a volume ----

  /** A run, one event further. */
  lemma {:induction false} Further(s: Panel, events: seq<Event>, i: nat)
    requires i < |events|
    ensures Run(s, events[..i + 1]) == Step(Run(s, events[..i]), events[i])
    ensures Gains(s, events[..i + 1]) == Gains(s, events[..i]) + Gain(Run(s, events[..i]), events[i])
  {
    assert events[..i + 1][..i] == events[..i];
  }

  /** Two jobs of which both read before either writes. */
  function Overlapping(first: Event, second: Event): seq<Event> {
    [first, Look(0), second, Look(1), Write(0), Write(1), Finish(0), Finish(1)]
  }

  /** A manager gives v while staff approve an admin's own request of w, and both have read the limit before either
      writes: both are done, and v is lost. */
  lemma {:induction false} GivenVolumeLost(live: int, copy: int, v: Volume, w: Volume)
    requires live > 0
    ensures var events := Overlapping(Begin(0, Give, v), Begin(1, Grant, w));
            var d := Run(Start(live, copy), events);
            && d.live == live + w
            && Gains(Start(live, copy), events) == v + w
  {
    hide Run, Gains, Step, Gain;
    var s, events := Start(live, copy), Overlapping(Begin(0, Give, v), Begin(1, Grant, w));
    assert Run(s, events[..0]) == s && Gains(s, events[..0]) == 0 by { NothingYet(s); }
    Further(s, events, 0);
    Further(s, events, 1);
    Further(s, events, 2);
    Further(s, events, 3);
    BothRead(live, copy, v, w);
    Further(s, events, 4);
    Further(s, events, 5);
    Further(s, events, 6);
    Further(s, events, 7);
    BothWrite(Run(s, events[..4]));
    assert events[..8] == events;
  }

  lemma {:induction false} BothRead(live: int, copy: int, v: Volume, w: Volume)
    requires live > 0
    ensures var s1 := Step(Start(live, copy), Begin(0, Give, v));
            var s2 := Step(s1, Look(0));
            var s3 := Step(s2, Begin(1, Grant, w));
            && Gain(Start(live, copy), Begin(0, Give, v)) == Gain(s1, Look(0)) == Gain(s2, Begin(1, Grant, w)) == Gain(s3, Look(1)) == 0
            && Step(s3, Look(1)) == Panel(live, 0, copy, true, true,
                                          map[0 := Job(Give, v, Looked(live, 0)), 1 := Job(Grant, w, Looked(live, 0))])
  {
  }

  /** Two jobs that have read the same limit write one after the other. */
  lemma {:induction false} BothWrite(p: Panel)
    requires p.live > 0 && p.jobs.Keys == {0, 1} && p.rowHeld && !p.jobs[0].kind.TakeBack? && !p.jobs[1].kind.TakeBack?
    requires p.jobs[0].phase == Looked(p.live, p.puts) && p.jobs[1].phase == Looked(p.live, p.puts)
    ensures var q := Step(p, Write(0));
            var r := Step(q, Write(1));
            && Gain(p, Write(0)) == p.jobs[0].volume && Gain(q, Write(1)) == p.jobs[1].volume
            && Gain(r, Finish(0)) == Gain(Step(r, Finish(0)), Finish(1)) == 0
            && Step(Step(r, Finish(0)), Finish(1)).live == p.live + p.jobs[1].volume
  {
  }

  lemma {:induction false} NothingYet(s: Panel)
    ensures Run(s, []) == s && Gains(s, []) == 0
  {
  }

  /** So it is with two gifts of managers once the lock of the first has run out. */
  lemma {:induction false} ExpiredLockLoses(live: int, copy: int, v: Volume, w: Volume)
    requires live > 0
    ensures var events := [Begin(0, Give, v), Look(0), LockExpires, Begin(1, Give, w), Look(1), Write(0), Write(1)];
            Run(Start(live, copy), events).live == live + w && Gains(Start(live, copy), events) == v + w
  {
    hide Run;
    hide Gains;
    var s := Start(live, copy);
    var events := [Begin(0, Give, v), Look(0), LockExpires, Begin(1, Give, w), Look(1), Write(0), Write(1)];
    assert Run(s, events[..0]) == s && Gains(s, events[..0]) == 0 by { NothingYet(s); }
    Further(s, events, 0);
    Further(s, events, 1);
    Further(s, events, 2);
    Further(s, events, 3);
    Further(s, events, 4);
    Further(s, events, 5);
    Further(s, events, 6);
    assert events[..7] == events;
  }

  // ---- without overlap ----

  /** A job that runs at once does what the single step of Approvals does to the panel. */
  lemma {:induction false} GiveAtOnce(d: Approvals.Desk, m: nat, n: Admin, gb: int, copy: int)
    requires Approvals.AddVolume(d, m, n, gb, true).Ok?
    ensures Approvals.Bytes(gb) > 0
    ensures AtOnce(d.panel[n], copy, Give, Approvals.Bytes(gb)).live == Approvals.AddVolume(d, m, n, gb, true).value.panel[n]
  {
    SomeBytes(gb);
    AtOncePuts(d.panel[n], copy, Give, Approvals.Bytes(gb));
  }

  lemma {:induction false} TakeBackAtOnce(d: Approvals.Desk, k: nat, copy: int)
    requires Approvals.Refuse(d, k, true).Ok? && !d.requests[k].kind.AdminRequest? && d.requests[k].gb > 0
    ensures var r := d.requests[k];
            && Approvals.Bytes(r.gb) > 0
            && AtOnce(d.panel[r.admin], copy, TakeBack, Approvals.Bytes(r.gb)).live
               == Approvals.Refuse(d, k, true).value.panel[r.admin]
  {
    SomeBytes(d.requests[k].gb);
    AtOncePuts(d.panel[d.requests[k].admin], copy, TakeBack, Approvals.Bytes(d.requests[k].gb));
  }

  lemma {:induction false} GrantAtOnce(d: Approvals.Desk, k: nat, prices: Approvals.Prices)
    requires Approvals.Grant(d, k, prices, true).Ok? && d.requests[k].kind.AdminRequest? && d.requests[k].gb > 0
    ensures var r := d.requests[k];
            && Approvals.Bytes(r.gb) > 0
            && AtOnce(d.panel[r.admin], d.rows[r.admin].Base(), Kind.Grant, Approvals.Bytes(r.gb)).live
               == Approvals.Grant(d, k, prices, true).value.panel[r.admin]
  {
    var r := d.requests[k];
    SomeBytes(r.gb);
    AtOncePuts(d.panel[r.admin], d.rows[r.admin].Base(), Kind.Grant, Approvals.Bytes(r.gb));
  }

  lemma {:induction false} SomeBytes(gb: nat)
    requires gb > 0
    ensures Approvals.Bytes(gb) > 0
  {
    assert gb * GIB >= GIB;
  }

  function AtOnce(live: int, copy: int, kind: Kind, volume: Volume): Panel {
    Run(Start(live, copy), [Begin(0, kind, volume), Look(0), Write(0), Finish(0)])
  }

  lemma {:induction false} AtOncePuts(live: int, copy: int, kind: Kind, volume: Volume)
    ensures AtOnce(live, copy, kind, volume).live
         == if live <= 0 && !kind.Grant? then live else Target(kind, volume, live, copy)
  {
    hide Run;
    var s, events := Start(live, copy), [Begin(0, kind, volume), Look(0), Write(0), Finish(0)];
    assert Run(s, events[..0]) == s by { NothingYet(s); }
    Further(s, events, 0);
    Further(s, events, 1);
    Further(s, events, 2);
    Further(s, events, 3);
    assert events[..4] == events;
  }
}
