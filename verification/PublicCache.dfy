// The response cache of the public endpoints: requests and bumps interleaved step by step.
module PublicCache {
  import opened Wrappers
  import opened Basics

  /** A request: which version it read, and how new its data is (data n is the database after n commits). */
  datatype Reader =
    | Idle
    | Adding(key: string)
    | Again(key: string)
    | Asked(key: string, v: nat)
    | Missed(key: string, v: nat)
    | Bypass
    | Built(key: string, v: nat, data: nat)
    | Answered(data: nat)

  /** A save: its commit is number n, and its bump may still be to come. */
  datatype Writer = Quiet | Committed(n: nat) | NoKey(n: nat)

  /** The database, the cache, and who is doing what. `bumped` is the newest commit whose bump is complete and
      `since` is what `bumped` was when the request read its version: neither is used by any step. */
  datatype State = State(
    db: nat,
    version: Option<nat>,
    entries: map<(nat, string), nat>,
    readers: map<nat, Reader>,
    writers: map<nat, Writer>,
    bumped: nat,
    since: map<nat, nat>
  )

  datatype Event =
    | ReadVersion(r: nat, key: string)
    | AddVersion(r: nat)
    | ReadAgain(r: nat)
    | ReadFails(r: nat)
    | Lookup(r: nat)
    | Build(r: nat, ok: bool)
    | Store(r: nat, works: bool)
    | Commit(w: nat)
    | Bump(w: nat)
    | BumpSets(w: nat)
    | BumpFails(w: nat)
    | Expire(v: nat, key: string)
    | EvictVersion

  function ReaderOf(s: State, r: nat): Reader { if r in s.readers then s.readers[r] else Idle }

  function WriterOf(s: State, w: nat): Writer { if w in s.writers then s.writers[w] else Quiet }

  function Sets(s: State, r: nat, p: Reader): State { s.(readers := s.readers[r := p]) }

  /** The request has the version it will use. */
  function Asks(s: State, r: nat, key: string, v: nat): State {
    s.(readers := s.readers[r := Asked(key, v)], since := s.since[r := s.bumped])
  }

  /** The save is done, and so is its bump. */
  function BumpedTo(s: State, w: nat, n: nat, v: nat): State {
    s.(version := Some(v), writers := s.writers[w := Quiet], bumped := Max(s.bumped, n))
  }

  /** One atomic step; an event that is not possible in the state changes nothing. */
  function Step(s: State, e: Event): State {
    match e
    case ReadVersion(r, key) =>
      if ReaderOf(s, r).Idle? || ReaderOf(s, r).Answered? then
        (match s.version case Some(v) => Asks(s, r, key, v) case None => Sets(s, r, Adding(key)))
      else s
    case AddVersion(r) =>
      if ReaderOf(s, r).Adding? then
        Sets(s, r, Again(ReaderOf(s, r).key)).(version := if s.version.None? then Some(1) else s.version)
      else s
    case ReadAgain(r) =>
      if ReaderOf(s, r).Again? then
        Asks(s, r, ReaderOf(s, r).key, match s.version case Some(v) => v case None => 1)
      else s
    case ReadFails(r) =>
      if !ReaderOf(s, r).Built? && !ReaderOf(s, r).Missed? then
        Sets(s, r, Bypass).(since := s.since[r := s.bumped])
      else s
    case Lookup(r) =>
      if ReaderOf(s, r).Asked? then
        var p := ReaderOf(s, r);
        if (p.v, p.key) in s.entries then Sets(s, r, Answered(s.entries[(p.v, p.key)])) else Sets(s, r, Missed(p.key, p.v))
      else s
    case Build(r, ok) =>
      (match ReaderOf(s, r)
       case Missed(key, v) => Sets(s, r, if ok then Built(key, v, s.db) else Answered(s.db))
       case Bypass => Sets(s, r, Answered(s.db))
       case _ => s)
    case Store(r, works) =>
      if ReaderOf(s, r).Built? then
        var p := ReaderOf(s, r);
        var t := Sets(s, r, Answered(p.data));
        if works then t.(entries := s.entries[(p.v, p.key) := p.data]) else t
      else s
    case Commit(w) =>
      if WriterOf(s, w).Quiet? then s.(db := s.db + 1, writers := s.writers[w := Committed(s.db + 1)]) else s
    case Bump(w) =>
      if WriterOf(s, w).Committed? then
        (match s.version
         case Some(v) => BumpedTo(s, w, WriterOf(s, w).n, v + 1)
         case None => s.(writers := s.writers[w := NoKey(WriterOf(s, w).n)]))
      else s
    case BumpSets(w) => if WriterOf(s, w).NoKey? then BumpedTo(s, w, WriterOf(s, w).n, 2) else s
    case BumpFails(w) => s.(writers := s.writers[w := Quiet])
    case Expire(v, key) => s.(entries := s.entries - {(v, key)})
    case EvictVersion => s.(version := None)
  }

  function Run(s: State, events: seq<Event>): State {
    if events == [] then s else Step(Run(s, events[..|events| - 1]), events[|events| - 1])
  }

  // ---- the invariant ----

  /** For each version so far, how new its data must be at least. */
  type Floors = map<nat, nat>

  ghost predicate ReaderInv(s: State, f: Floors, r: nat) {
    match ReaderOf(s, r)
    case Idle => true
    case Adding(_) => false
    case Again(_) => false
    case Asked(_, v) => r in s.since && v in f && f[v] == s.since[r]
    case Missed(_, v) => r in s.since && v in f && f[v] == s.since[r]
    case Bypass => r in s.since && s.since[r] <= s.db
    case Built(_, v, data) => r in s.since && v in f && f[v] == s.since[r] <= data
    case Answered(data) => r in s.since && s.since[r] <= data
  }

  ghost predicate WriterInv(s: State, w: nat) {
    match WriterOf(s, w)
    case Quiet => true
    case Committed(n) => n <= s.db
    case NoKey(_) => false
  }

  /** The key is there, versions only go up, and whatever is kept under a version is new enough for it. */
  ghost predicate Inv(s: State, f: Floors) {
    && s.version.Some? && s.version.value in f && f[s.version.value] == s.bumped
    && (forall v :: v in f ==> v <= s.version.value && f[v] <= s.bumped)
    && s.bumped <= s.db
    && (forall e :: e in s.entries ==> e.0 in f && f[e.0] <= s.entries[e])
    && (forall r :: ReaderInv(s, f, r))
    && (forall w :: WriterInv(s, w))
  }

  /** The floors after a step: a bump opens a new version. */
  function Raised(s: State, f: Floors, e: Event): Floors
    requires s.version.Some?
  {
    if e.Bump? && WriterOf(s, e.w).Committed? then f[s.version.value + 1 := Max(s.bumped, WriterOf(s, e.w).n)] else f
  }

  /** A step of a request. */
  predicate OfRequest(e: Event) {
    e.ReadVersion? || e.AddVersion? || e.ReadAgain? || e.ReadFails? || e.Lookup? || e.Build? || e.Store?
  }

  predicate Moves(e: Event, r: nat) { OfRequest(e) && e.r == r }

  lemma {:induction false} OwnStep(s: State, f: Floors, e: Event, r: nat)
    requires Inv(s, f) && Moves(e, r)
    ensures ReaderInv(Step(s, e), f, r)
  {
    hide WriterInv;
    assert ReaderInv(s, f, r);
  }

  /** A step of another request changes neither this one nor the database. */
  lemma {:induction false} OtherRequest(s: State, e: Event, r: nat)
    requires OfRequest(e) && e.r != r
    ensures var t := Step(s, e);
            ReaderOf(t, r) == ReaderOf(s, r) && (r in t.since <==> r in s.since) && (r in s.since ==> t.since[r] == s.since[r]) && t.db == s.db
  {
  }

  lemma {:induction false} OtherStep(s: State, f: Floors, e: Event, r: nat)
    requires s.version.Some? && (forall v :: v in f ==> v <= s.version.value)
    requires ReaderInv(s, f, r) && !e.EvictVersion? && !Moves(e, r)
    ensures ReaderInv(Step(s, e), Raised(s, f, e), r)
  {
    if OfRequest(e) {
      hide Step;
      OtherRequest(s, e, r);
    } else {
      assert Step(s, e).readers == s.readers && Step(s, e).since == s.since && s.db <= Step(s, e).db;
    }
  }

  lemma {:induction false} ReaderStep(s: State, f: Floors, e: Event, r: nat)
    requires Inv(s, f) && !e.EvictVersion?
    ensures ReaderInv(Step(s, e), Raised(s, f, e), r)
  {
    hide Step, ReaderInv, WriterInv;
    if Moves(e, r) {
      OwnStep(s, f, e, r);
    } else {
      OtherStep(s, f, e, r);
    }
  }

  lemma {:induction false} WriterStep(s: State, f: Floors, e: Event, w: nat)
    requires Inv(s, f) && !e.EvictVersion?
    ensures WriterInv(Step(s, e), w)
  {
    assert WriterInv(s, w);
  }

  /** The part of the invariant that is about the key and what is kept. */
  predicate Shelves(s: State, f: Floors) {
    && s.version.Some? && s.version.value in f && f[s.version.value] == s.bumped <= s.db
    && (forall v :: v in f ==> v <= s.version.value && f[v] <= s.bumped)
    && (forall e :: e in s.entries ==> e.0 in f && f[e.0] <= s.entries[e])
  }

  lemma {:induction false} ShelvesOnRead(s: State, f: Floors, e: Event, r: nat)
    requires Shelves(s, f) && ReaderInv(s, f, r) && Moves(e, r)
    ensures Shelves(Step(s, e), f)
  {
  }

  lemma {:induction false} ShelvesElse(s: State, f: Floors, e: Event)
    requires Shelves(s, f) && !e.EvictVersion? && !OfRequest(e) && forall w :: WriterInv(s, w)
    ensures Shelves(Step(s, e), Raised(s, f, e))
  {
    if e.Bump? || e.BumpSets? {
      assert WriterInv(s, e.w);
    }
  }

  lemma {:induction false} CacheStep(s: State, f: Floors, e: Event)
    requires Inv(s, f) && !e.EvictVersion?
    ensures Shelves(Step(s, e), Raised(s, f, e))
  {
    hide Step, ReaderInv, WriterInv;
    if OfRequest(e) {
      assert ReaderInv(s, f, e.r);
      ShelvesOnRead(s, f, e, e.r);
    } else {
      ShelvesElse(s, f, e);
    }
  }

  lemma {:induction false} StepKeeps(s: State, f: Floors, e: Event)
    requires Inv(s, f) && !e.EvictVersion?
    ensures Inv(Step(s, e), Raised(s, f, e))
  {
    hide Step, Raised, ReaderInv, WriterInv;
    CacheStep(s, f, e);
    forall r ensures ReaderInv(Step(s, e), Raised(s, f, e), r) {
      ReaderStep(s, f, e, r);
    }
    forall w ensures WriterInv(Step(s, e), w) {
      WriterStep(s, f, e, w);
    }
  }

  /** A request never replaces a version that is there; when it is missing it makes it 1 at most. */
  lemma {:induction false} RequestsKeepVersion(s: State, e: Event)
    requires OfRequest(e)
    ensures s.version.Some? ==> Step(s, e).version == s.version
    ensures s.version.None? ==> Step(s, e).version == None || Step(s, e).version == Some(1)
  {
  }

  /** A request goes by the version that is there when it reads it, or by 1 when there is none even after it added it; and
      it finds an answer exactly if one is kept under that version and has not expired. */
  lemma {:induction false} ReadsThere(s: State, r: nat, v: nat, key: string)
    ensures ReaderOf(s, r) == Again(key) ==>
              var p := ReaderOf(Step(s, ReadAgain(r)), r);
              p.Asked? && p.key == key && (s.version.Some? ==> p.v == s.version.value) && (s.version.None? ==> p.v == 1)
    ensures ReaderOf(s, r) == Asked(key, v) ==>
              (ReaderOf(Step(s, Lookup(r)), r).Answered? <==> (v, key) in s.entries)
    ensures ReaderOf(s, r) == Asked(key, v) ==> !ReaderOf(Step(Step(s, Expire(v, key)), Lookup(r)), r).Answered?
    ensures forall w, other :: (w, other) != (v, key) ==>
              ((w, other) in Step(s, Expire(v, key)).entries <==> (w, other) in s.entries)
  {
  }

  // ---- freshness over whole runs ----

  ghost predicate Intact(events: seq<Event>) {
    forall i :: 0 <= i < |events| ==> !events[i].EvictVersion?
  }

  /** A server at rest with the version key in place, and nothing kept yet. */
  ghost predicate Fresh(s: State) {
    && s.version.Some? && s.entries == map[] && s.bumped <= s.db
    && (forall r :: ReaderOf(s, r).Idle?) && (forall w :: WriterOf(s, w).Quiet?)
  }

  lemma {:induction false} RunKeeps(s: State, events: seq<Event>) returns (f: Floors)
    requires Fresh(s) && Intact(events)
    ensures Inv(Run(s, events), f)
    decreases |events|
  {
    if events == [] {
      f := map[s.version.value := s.bumped];
    } else {
      var before := events[..|events| - 1];
      var g := RunKeeps(s, before);
      StepKeeps(Run(s, before), g, events[|events| - 1]);
      f := Raised(Run(s, before), g, events[|events| - 1]);
    }
  }

  lemma {:induction false} RunConcat(s: State, a: seq<Event>, b: seq<Event>)
    ensures Run(s, a + b) == Run(Run(s, a), b)
    decreases |b|
  {
    if b == [] {
      assert a + b == a;
    } else {
      assert (a + b)[..|a + b| - 1] == a + b[..|b| - 1];
      RunConcat(s, a, b[..|b| - 1]);
    }
  }

  ghost predicate SinceInv(s: State) {
    forall r :: r in s.since ==> s.since[r] <= s.bumped
  }

  lemma {:induction false} StepMonotone(s: State, e: Event)
    requires SinceInv(s)
    ensures SinceInv(Step(s, e)) && s.bumped <= Step(s, e).bumped
    ensures forall r :: r in s.since ==> r in Step(s, e).since && s.since[r] <= Step(s, e).since[r]
  {
  }

  /** What was bumped stays bumped, and a request never knows less than it did. */
  lemma {:induction false} RunMonotone(s: State, events: seq<Event>, r: nat)
    requires SinceInv(s)
    ensures SinceInv(Run(s, events)) && s.bumped <= Run(s, events).bumped
    ensures r in s.since ==> r in Run(s, events).since && s.since[r] <= Run(s, events).since[r]
    decreases |events|
  {
    if events != [] {
      hide Step, SinceInv;
      RunMonotone(s, events[..|events| - 1], r);
      StepMonotone(Run(s, events[..|events| - 1]), events[|events| - 1]);
    }
  }

  lemma {:induction false} SinceHolds(s: State, events: seq<Event>)
    requires Fresh(s) && SinceInv(s)
    ensures SinceInv(Run(s, events))
  {
    RunMonotone(s, events, 0);
  }

  /** A save whose bump found the key: commit number n. */
  ghost predicate Bumps(s: State, w: nat, n: nat) {
    WriterOf(s, w) == Committed(n)
  }

  /** A request that reads the version after the bump of commit n never returns data older than commit n, whatever
      other requests and saves do in between and after, and however late a slow one stores what it built. */
  lemma {:induction false} FreshAfterBump(
    s: State, before: seq<Event>, w: nat, n: nat, mid: seq<Event>, r: nat, key: string, after: seq<Event>, data: nat)
    requires Fresh(s) && SinceInv(s) && Intact(before + [Bump(w)] + mid + [ReadVersion(r, key)] + after)
    requires Bumps(Run(s, before), w, n)
    requires var p := ReaderOf(Run(s, before + [Bump(w)] + mid), r); p.Idle? || p.Answered?
    requires ReaderOf(Run(s, before + [Bump(w)] + mid + [ReadVersion(r, key)] + after), r) == Answered(data)
    ensures n <= data
  {
    hide Fresh;
    hide Intact;
    hide ReaderOf;
    hide Inv;
    var e1, e2 := before + [Bump(w)], before + [Bump(w)] + mid;
    var e3 := e2 + [ReadVersion(r, key)];
    var events := e3 + after;
    var f0 := IntactPrefix(s, before, events);
    assert e1[..|e1| - 1] == before;
    assert n <= Run(s, e1).bumped;
    SinceHolds(s, e1);
    RunConcat(s, e1, mid);
    RunMonotone(Run(s, e1), mid, r);
    var f2 := IntactPrefix(s, e2, events);
    assert e3[..|e3| - 1] == e2;
    assert r in Run(s, e3).since && Run(s, e3).since[r] == Run(s, e2).bumped;
    RunConcat(s, e3, after);
    RunMonotone(Run(s, e3), after, r);
    var f := RunKeeps(s, events);
    assert ReaderInv(Run(s, events), f, r);
  }

  lemma {:induction false} IntactPrefix(s: State, part: seq<Event>, events: seq<Event>) returns (f: Floors)
    requires Fresh(s) && Intact(events) && part <= events
    ensures Inv(Run(s, part), f)
  {
    assert forall i :: 0 <= i < |part| ==> part[i] == events[i];
    f := RunKeeps(s, part);
  }

  // ---- when the key is lost ----

  /** Once the version key is lost while something is still kept under version 2, one save and one request are
      enough for an answer older than that save. */
  lemma {:induction false} LostKeyIsStale(s: State, key: string, r: nat, w: nat)
    requires s.version.None? && (2, key) in s.entries && s.entries[(2, key)] <= s.db
    requires (ReaderOf(s, r).Idle? || ReaderOf(s, r).Answered?) && WriterOf(s, w).Quiet?
    ensures var t := Run(s, [Commit(w), Bump(w), BumpSets(w), ReadVersion(r, key), Lookup(r)]);
            ReaderOf(t, r) == Answered(s.entries[(2, key)]) && r in t.since && t.since[r] >= s.db + 1 > s.entries[(2, key)]
  {
    hide Run;
    var events := [Commit(w), Bump(w), BumpSets(w), ReadVersion(r, key), Lookup(r)];
    var s1 := Step(s, Commit(w));
    var s2 := Step(s1, Bump(w));
    var s3 := Step(s2, BumpSets(w));
    var s4 := Step(s3, ReadVersion(r, key));
    Runs5(s, events);
    assert s3.version == Some(2) && s3.bumped >= s.db + 1;
    assert ReaderOf(s4, r) == Asked(key, 2);
  }

  /** n saves, each with its bump. */
  function Climb(w: nat, n: nat): seq<Event> {
    if n == 0 then [] else Climb(w, n - 1) + [Commit(w), Bump(w)]
  }

  /** A request that fills the cache; under version 1, also a save. */
  function BeforeLoss(v: nat, key: string, r: nat, w: nat): seq<Event> {
    [ReadVersion(r, key), Lookup(r), Build(r, true), Store(r, true)] + if v == 1 then [Commit(w), Bump(w)] else []
  }

  /** From the lost key back to version v, and a request. */
  function AfterLoss(v: nat, key: string, r: nat, w: nat): seq<Event> {
    if v <= 1 then [ReadVersion(r, key), AddVersion(r), ReadAgain(r), Lookup(r)]
    else [Commit(w), Bump(w), BumpSets(w)] + Climb(w, v - 2) + [ReadVersion(r, key), Lookup(r)]
  }

  ghost predicate Stale(s: State, r: nat) {
    ReaderOf(s, r).Answered? && r in s.since && ReaderOf(s, r).data < s.since[r]
  }

  /** So the bound holds only while the key stays: at whatever version it is lost, losing it once is enough for a
      run that ends with an answer older than a save bumped before the request. */
  lemma {:induction false} EvictionBreaks(s: State, key: string, r: nat, w: nat)
    requires Fresh(s) && s.version.value >= 1
    ensures var v := s.version.value;
            && Intact(BeforeLoss(v, key, r, w)) && Intact(AfterLoss(v, key, r, w))
            && Stale(Run(s, BeforeLoss(v, key, r, w) + [EvictVersion] + AfterLoss(v, key, r, w)), r)
  {
    hide Step;
    var v, before := s.version.value, BeforeLoss(s.version.value, key, r, w);
    var rest := AfterLoss(v, key, r, w);
    assert ReaderOf(s, r).Idle? && WriterOf(s, w).Quiet?;
    IntactClimb(w, if v >= 2 then v - 2 else 0);
    RunConcat(s, before, [EvictVersion]);
    RunConcat(s, before + [EvictVersion], rest);
    Filled(s, key, r, w);
    Lost(Run(s, before));
    if v == 1 {
      FromOne(Run(s, before + [EvictVersion]), key, r);
    } else {
      FromTwo(Run(s, before + [EvictVersion]), key, r, w, v);
    }
  }

  lemma {:induction false} IntactClimb(w: nat, n: nat)
    ensures Intact(Climb(w, n))
  {
    if n > 0 {
      IntactClimb(w, n - 1);
    }
  }

  /** What the cache holds once filled: the answer under its version, and only that. */
  lemma {:induction false} Filled(s: State, key: string, r: nat, w: nat)
    requires ReaderOf(s, r).Idle? && WriterOf(s, w).Quiet? && s.version.Some? && s.entries == map[]
    ensures var v, t := s.version.value, Run(s, BeforeLoss(s.version.value, key, r, w));
            && ReaderOf(t, r) == Answered(s.db) && t.entries == map[(v, key) := s.db]
            && WriterOf(t, w).Quiet? && t.db >= s.db && (v == 1 ==> t.bumped >= s.db + 1)
  {
    hide Run;
    var v := s.version.value;
    var fill: seq<Event> := [ReadVersion(r, key), Lookup(r), Build(r, true), Store(r, true)];
    var s1 := Step(s, fill[0]);
    assert ReaderOf(s1, r) == Asked(key, v) && s1.entries == map[];
    var s2 := Step(s1, fill[1]);
    assert ReaderOf(s2, r) == Missed(key, v);
    var s3 := Step(s2, fill[2]);
    assert ReaderOf(s3, r) == Built(key, v, s.db);
    var s4 := Step(s3, fill[3]);
    assert ReaderOf(s4, r) == Answered(s.db) && s4.entries == map[(v, key) := s.db] && s4.db == s.db;
    Runs4(s, fill);
    if v == 1 {
      RunConcat(s, fill, [Commit(w), Bump(w)]);
      Saved(s4, w);
    } else {
      assert fill + [] == fill;
    }
  }

  lemma {:induction false} Lost(s: State)
    ensures Run(s, [EvictVersion]) == s.(version := None)
  {
    var one: seq<Event> := [EvictVersion];
    assert one[..0] == [];
    assert Run(s, one) == Step(Run(s, one[..0]), one[0]);
  }

  lemma {:induction false} Climbed(s: State, w: nat, n: nat)
    requires s.version.Some? && WriterOf(s, w).Quiet?
    ensures var t := Run(s, Climb(w, n));
            && t.version == Some(s.version.value + n) && t.entries == s.entries && t.readers == s.readers && t.since == s.since
            && WriterOf(t, w).Quiet? && t.bumped >= s.bumped && t.db == s.db + n && (n > 0 ==> t.bumped >= s.db + 1)
  {
    hide Step;
    if n > 0 {
      Climbed(s, w, n - 1);
      RunConcat(s, Climb(w, n - 1), [Commit(w), Bump(w)]);
      Saved(Run(s, Climb(w, n - 1)), w);
    }
  }

  /** One save, with its bump. */
  lemma {:induction false} Saved(s: State, w: nat)
    requires s.version.Some? && WriterOf(s, w).Quiet?
    ensures var t := Run(s, [Commit(w), Bump(w)]);
            && t.version == Some(s.version.value + 1) && t.entries == s.entries && t.readers == s.readers && t.since == s.since
            && WriterOf(t, w).Quiet? && t.bumped >= s.bumped && t.db == s.db + 1 && t.bumped >= t.db
  {
    Runs2(s, [Commit(w), Bump(w)]);
  }

  lemma {:induction false} FromOne(s: State, key: string, r: nat)
    requires s.version.None? && ReaderOf(s, r).Answered? && (1, key) in s.entries && s.entries[(1, key)] < s.bumped
    ensures Stale(Run(s, [ReadVersion(r, key), AddVersion(r), ReadAgain(r), Lookup(r)]), r)
  {
    var events: seq<Event> := [ReadVersion(r, key), AddVersion(r), ReadAgain(r), Lookup(r)];
    var s1 := Step(s, events[0]);
    var s2 := Step(s1, events[1]);
    var s3 := Step(s2, events[2]);
    assert ReaderOf(s3, r) == Asked(key, 1);
    Runs4(s, events);
  }

  /** A request finds what is kept under the version, however old. */
  lemma {:induction false} HitIsStale(s: State, key: string, r: nat, v: nat)
    requires s.version == Some(v) && ReaderOf(s, r).Answered?
    requires (v, key) in s.entries && s.entries[(v, key)] < s.bumped
    ensures Stale(Run(s, [ReadVersion(r, key), Lookup(r)]), r)
  {
    var ask: seq<Event> := [ReadVersion(r, key), Lookup(r)];
    Runs2(s, ask);
    assert ReaderOf(Step(s, ask[0]), r) == Asked(key, v);
  }

  lemma {:induction false} FromTwo(s: State, key: string, r: nat, w: nat, v: nat)
    requires s.version.None? && ReaderOf(s, r).Answered? && WriterOf(s, w).Quiet? && v >= 2
    requires (v, key) in s.entries && s.entries[(v, key)] <= s.db
    ensures Stale(Run(s, AfterLoss(v, key, r, w)), r)
  {
    hide Run, Step, Stale;
    var up: seq<Event> := [Commit(w), Bump(w), BumpSets(w)];
    var ask: seq<Event> := [ReadVersion(r, key), Lookup(r)];
    Restarted(s, w);
    Climbed(Run(s, up), w, v - 2);
    RunConcat(s, up, Climb(w, v - 2));
    RunConcat(s, up + Climb(w, v - 2), ask);
    HitIsStale(Run(s, up + Climb(w, v - 2)), key, r, v);
  }

  /** A save that finds no key starts the versions at 2. */
  lemma {:induction false} Restarted(s: State, w: nat)
    requires s.version.None? && WriterOf(s, w).Quiet?
    ensures var t := Run(s, [Commit(w), Bump(w), BumpSets(w)]);
            && t.version == Some(2) && t.bumped >= s.db + 1 && t.entries == s.entries && t.readers == s.readers
            && WriterOf(t, w).Quiet?
  {
    RunSteps(s, [Commit(w), Bump(w), BumpSets(w)]);
  }

  lemma {:induction false} Runs2(s: State, e: seq<Event>)
    requires |e| == 2
    ensures Run(s, e) == Step(Step(s, e[0]), e[1])
  {
    assert e[..1][..0] == [];
    assert Run(s, e[..1]) == Step(s, e[0]);
  }

  lemma {:induction false} Runs4(s: State, e: seq<Event>)
    requires |e| == 4
    ensures Run(s, e) == Step(Step(Step(Step(s, e[0]), e[1]), e[2]), e[3])
  {
    Runs2(s, e[..2]);
    assert e[..3][..2] == e[..2];
    assert Run(s, e[..3]) == Step(Run(s, e[..2]), e[2]);
  }

  lemma {:induction false} Runs5(s: State, e: seq<Event>)
    requires |e| == 5
    ensures Run(s, e) == Step(Step(Step(Step(Step(s, e[0]), e[1]), e[2]), e[3]), e[4])
  {
    assert e[..5] == e && e[..4][..3] == e[..3] && e[..3][..2] == e[..2] && e[..2][..1] == e[..1] && e[..1][..0] == [];
    assert Run(s, e[..1]) == Step(s, e[0]);
    assert Run(s, e[..2]) == Step(Run(s, e[..1]), e[1]);
    assert Run(s, e[..3]) == Step(Run(s, e[..2]), e[2]);
    assert Run(s, e[..4]) == Step(Run(s, e[..3]), e[3]);
  }

  // ---- the functions, run without interruption ----

  /** The steps of one request, in their order; those not possible change nothing. */
  function Request(r: nat, key: string, ok: bool): seq<Event> {
    [ReadVersion(r, key), AddVersion(r), ReadAgain(r), Lookup(r), Build(r, ok), Store(r, true)]
  }

  lemma {:induction false} RunSteps(s: State, e: seq<Event>)
    ensures |e| == 3 ==> Run(s, e) == Step(Step(Step(s, e[0]), e[1]), e[2])
    ensures |e| == 6 ==> Run(s, e) == Step(Step(Step(Step(Step(Step(s, e[0]), e[1]), e[2]), e[3]), e[4]), e[5])
  {
    hide Step;
    if |e| == 6 {
      assert e[..5][..5] == e[..5];
      Runs5(s, e[..5]);
    } else if |e| == 3 {
      assert e[..2][..1] == e[..1] && e[..1][..0] == [];
      assert Run(s, e[..1]) == Step(s, e[0]);
      assert Run(s, e[..2]) == Step(Run(s, e[..1]), e[1]);
    }
  }

  lemma {:induction false} VersionRead(s: State, r: nat, key: string)
    requires ReaderOf(s, r).Idle?
    ensures var t := Step(Step(Step(s, ReadVersion(r, key)), AddVersion(r)), ReadAgain(r));
            var v := match s.version case Some(v) => v case None => 1;
            ReaderOf(t, r) == Asked(key, v) && t.version == Some(v) && t.db == s.db && t.entries == s.entries
  {
  }

  lemma {:induction false} Served(s: State, r: nat, ok: bool)
    requires ReaderOf(s, r).Asked?
    ensures var t := Step(Step(Step(s, Lookup(r)), Build(r, ok)), Store(r, true));
            var k := (ReaderOf(s, r).v, ReaderOf(s, r).key);
            && ReaderOf(t, r) == Answered(if k in s.entries then s.entries[k] else s.db)
            && t.entries == (if k in s.entries || !ok then s.entries else s.entries[k := s.db])
            && t.version == s.version && t.db == s.db
  {
  }

  /** What one uninterrupted request answers and leaves behind. */
  lemma {:induction false} RequestRuns(s: State, r: nat, key: string, ok: bool)
    requires ReaderOf(s, r).Idle?
    ensures var t := Run(s, Request(r, key, ok));
            var v := match s.version case Some(v) => v case None => 1;
            && ReaderOf(t, r) == Answered(if (v, key) in s.entries then s.entries[(v, key)] else s.db)
            && t.entries == (if (v, key) in s.entries || !ok then s.entries else s.entries[(v, key) := s.db])
            && t.version == Some(v) && t.db == s.db
  {
    hide Step, Run;
    RunSteps(s, Request(r, key, ok));
    VersionRead(s, r, key);
    Served(Step(Step(Step(s, ReadVersion(r, key)), AddVersion(r)), ReadAgain(r)), r, ok);
  }

  class Server {
    var db: nat
    var version: Option<nat>
    var entries: map<(nat, string), nat>

    ghost predicate Matches(s: State)
      reads this
    {
      s.db == db && s.version == version && s.entries == entries
    }

    method CurrentVersion() returns (v: nat)
      modifies `version
      ensures version == Some(v)
      ensures old(version).Some? ==> v == old(version).value
      ensures old(version).None? ==> v == 1
    {
      if version.None? {
        version := Some(1);
      }
      v := version.value;
    }

    /** A save: the commit, then the bump. */
    method Save(ghost s: State, ghost w: nat)
      requires Matches(s) && WriterOf(s, w).Quiet?
      modifies this
      ensures Matches(Run(s, [Commit(w), Bump(w), BumpSets(w)]))
      ensures Run(s, [Commit(w), Bump(w), BumpSets(w)]).bumped >= db
    {
      RunSteps(s, [Commit(w), Bump(w), BumpSets(w)]);
      db := db + 1;
      match version {
        case Some(v) => version := Some(v + 1);
        case None => version := Some(2);
      }
    }

    /** A request: from the cache, or built and, when it succeeded, stored. */
    method CachedPublic(key: string, ok: bool, ghost s: State, ghost r: nat) returns (data: nat)
      requires Matches(s) && ReaderOf(s, r).Idle?
      modifies this
      ensures Matches(Run(s, Request(r, key, ok)))
      ensures ReaderOf(Run(s, Request(r, key, ok)), r) == Answered(data)
    {
      hide Step, Run;
      RequestRuns(s, r, key, ok);
      var v := CurrentVersion();
      if (v, key) in entries {
        return entries[(v, key)];
      }
      data := db;
      if ok {
        entries := entries[(v, key) := data];
      }
    }
  }
}
