// The traffic of users deleted on the panel, kept in each reseller's sold volume across syncs.
module DeletedTraffic {
  import opened Wrappers

  datatype User = User(name: string, used: Option<nat>)

  type Usage = map<string, nat>

  /** A reseller's row: its snapshot, the bytes of deleted users since the last reset, and its sold volume. */
  datatype Row = Row(snapshot: Usage, deleted: nat, sold: nat)

  /** What the panel told of one reseller: nothing, part of its users, or all of them; unsaved is all of them, but the
      transaction that saves the snapshot fails. */
  datatype Read =
    | Failed(admin: string)
    | Partial(admin: string, sold: nat)
    | Complete(admin: string, users: seq<User>, sold: nat)
    | Unsaved(admin: string, users: seq<User>, sold: nat)

  /** The users by name, the last of a name winning; a user without a name is skipped. */
  function Current(users: seq<User>): Usage {
    if users == [] then map[]
    else
      var u, rest := users[|users| - 1], Current(users[..|users| - 1]);
      if u.name == "" then rest else rest[u.name := match u.used case Some(n) => n case None => 0]
  }

  /** The k-th of the users is the last of its name. */
  predicate LastOf(users: seq<User>, k: nat) {
    k < |users| && forall j :: k < j < |users| ==> users[j].name != users[k].name
  }

  /** A name is in it exactly if it is that of a user and not empty, with what the last user of that name reports, and
      nothing when it reports nothing. */
  lemma {:induction false} CurrentIs(users: seq<User>, name: string)
    ensures name in Current(users) <==> name != "" && exists k :: 0 <= k < |users| && users[k].name == name
    ensures forall k: nat :: LastOf(users, k) && users[k].name == name && name != "" ==>
              name in Current(users) && Current(users)[name] == (if users[k].used.Some? then users[k].used.value else 0)
    decreases |users|
  {
    forall k: nat | LastOf(users, k) && users[k].name == name && name != ""
      ensures name in Current(users) && Current(users)[name] == (if users[k].used.Some? then users[k].used.value else 0)
    {
      LastCounts(users, k);
    }
    if users != [] {
      var rest, last := users[..|users| - 1], users[|users| - 1];
      CurrentIs(rest, name);
      assert users == rest + [last];
      assert (exists k :: 0 <= k < |users| && users[k].name == name)
             <==> (exists k :: 0 <= k < |rest| && rest[k].name == name) || last.name == name by {
        assert forall k :: 0 <= k < |rest| ==> users[k] == rest[k];
        assert users[|rest|] == last;
      }
    }
  }

  lemma {:induction false} LastCounts(users: seq<User>, k: nat)
    requires LastOf(users, k) && users[k].name != ""
    ensures users[k].name in Current(users)
    ensures Current(users)[users[k].name] == if users[k].used.Some? then users[k].used.value else 0
    decreases |users|
  {
    var rest := users[..|users| - 1];
    if k < |rest| {
      assert rest[k] == users[k] && users[|rest|].name != users[k].name;
      LastCounts(rest, k);
    }
  }

  // ---- sums over a table ----

  ghost function Total(m: Usage): nat
    decreases |m|
  {
    if m == map[] then 0
    else
      var k :| k in m;
      assert |m - {k}| < |m| by { Smaller(m, k); }
      m[k] + Total(m - {k})
  }

  lemma {:induction false} Smaller(m: Usage, k: string)
    requires k in m
    ensures |m - {k}| == |m| - 1
  {
    assert (m - {k}).Keys == m.Keys - {k};
  }

  lemma {:induction false} TotalWithout(m: Usage, k: string)
    requires k in m
    ensures Total(m) == m[k] + Total(m - {k})
    decreases |m|
  {
    var l :| l in m && Total(m) == m[l] + Total(m - {l});
    if l != k {
      Smaller(m, l);
      Smaller(m, k);
      TotalWithout(m - {l}, k);
      TotalWithout(m - {k}, l);
      assert m - {l} - {k} == m - {k} - {l};
    }
  }

  /** The part of a table whose names are, or are not, in another. */
  function Kept(prev: Usage, cur: Usage): Usage { map u | u in prev && u in cur :: prev[u] }

  function Lost(prev: Usage, cur: Usage): Usage { map u | u in prev && u !in cur :: prev[u] }

  lemma {:induction false} TotalSplits(prev: Usage, cur: Usage)
    ensures Total(prev) == Total(Kept(prev, cur)) + Total(Lost(prev, cur))
    decreases |prev|
  {
    if prev == map[] {
      assert Kept(prev, cur) == map[] && Lost(prev, cur) == map[];
    } else {
      var k :| k in prev;
      Smaller(prev, k);
      TotalWithout(prev, k);
      TotalSplits(prev - {k}, cur);
      if k in cur {
        TotalWithout(Kept(prev, cur), k);
        assert Kept(prev - {k}, cur) == Kept(prev, cur) - {k} && Lost(prev - {k}, cur) == Lost(prev, cur);
      } else {
        TotalWithout(Lost(prev, cur), k);
        assert Lost(prev - {k}, cur) == Lost(prev, cur) - {k} && Kept(prev - {k}, cur) == Kept(prev, cur);
      }
    }
  }

  lemma {:induction false} TotalMonotone(a: Usage, b: Usage)
    requires forall u :: u in a ==> u in b && a[u] <= b[u]
    ensures Total(a) <= Total(b)
    decreases |a|
  {
    if a != map[] {
      var k :| k in a;
      Smaller(a, k);
      TotalWithout(a, k);
      TotalWithout(b, k);
      TotalMonotone(a - {k}, b - {k});
    }
  }

  // ---- one reseller ----

  /** The deleted bytes are saved first, and on their own. */
  ghost function Count(r: Row, users: seq<User>): Row {
    r.(deleted := r.deleted + Total(Lost(r.snapshot, Current(users))))
  }

  ghost function Track(r: Row, users: seq<User>): Row {
    Count(r, users).(snapshot := Current(users))
  }

  /** The rows of the snapshot that a read makes the sync write. */
  function Differing(prev: Usage, cur: Usage): set<string> {
    (set u | u in prev && u !in cur) + set u | u in cur && (u !in prev || prev[u] != cur[u])
  }

  lemma {:induction false} DifferingIs(prev: Usage, cur: Usage, names: set<string>)
    requires forall u :: u in names <==> (u in prev && u !in cur) || (u in cur && (u !in prev || prev[u] != cur[u]))
    ensures names == Differing(prev, cur)
  {
  }

  /** The names done are as in cur, those left as in prev; the written ones are those gone and those done that differ. */
  ghost predicate Halfway(prev: Usage, cur: Usage, left: set<string>, m: Usage, written: set<string>) {
    && (forall u :: u in m <==> u in cur && (u in prev || u !in left))
    && (forall u :: u in m ==> m[u] == if u in left && u in prev then prev[u] else cur[u])
    && (forall u :: u in written <==> (u in prev && u !in cur) || (u in cur && u !in left && (u !in prev || prev[u] != cur[u])))
  }

  lemma {:induction false} HalfwayStart(prev: Usage, cur: Usage)
    ensures Halfway(prev, cur, cur.Keys, prev - (prev.Keys - cur.Keys), prev.Keys - cur.Keys)
  {
  }

  lemma {:induction false} HalfwayStep(prev: Usage, cur: Usage, left: set<string>, m: Usage, written: set<string>, u: string)
    requires Halfway(prev, cur, left, m, written) && left <= cur.Keys && u in left
    ensures if u !in prev || prev[u] != cur[u] then Halfway(prev, cur, left - {u}, m[u := cur[u]], written + {u})
            else Halfway(prev, cur, left - {u}, m, written)
  {
  }

  lemma {:induction false} HalfwayEnd(prev: Usage, cur: Usage, m: Usage, written: set<string>)
    requires Halfway(prev, cur, {}, m, written)
    ensures m == cur && written == Differing(prev, cur)
  {
    DifferingIs(prev, cur, written);
  }

  class Snapshots {
    var snapshot: Usage
    var deleted: nat
    var sold: nat

    function State(): Row
      reads this
    {
      Row(snapshot, deleted, sold)
    }

    constructor (r: Row)
      ensures State() == r
    {
      snapshot, deleted, sold := r.snapshot, r.deleted, r.sold;
    }

    static method CurrentMap(users: seq<User>) returns (current: Usage)
      ensures current == Current(users)
    {
      current := map[];
      for i := 0 to |users|
        invariant current == Current(users[..i])
      {
        assert users[..i + 1][..i] == users[..i];
        if users[i].name != "" {
          current := current[users[i].name := match users[i].used case Some(n) => n case None => 0];
        }
      }
      assert users[..|users|] == users;
    }

    /** Deletes the rows of missing users and writes those new or changed. */
    method WriteSnapshot(current: Usage) returns (written: set<string>)
      modifies `snapshot
      ensures snapshot == current && written == Differing(old(snapshot), current)
    {
      hide Differing, Halfway;
      var prev := snapshot;
      var gone := prev.Keys - current.Keys;
      snapshot, written := snapshot - gone, gone;
      HalfwayStart(prev, current);
      var left := current.Keys;
      while left != {}
        invariant left <= current.Keys
        invariant Halfway(prev, current, left, snapshot, written)
        decreases |left|
      {
        var u :| u in left;
        HalfwayStep(prev, current, left, snapshot, written, u);
        if u !in prev || prev[u] != current[u] {
          snapshot := snapshot[u := current[u]];
          written := written + {u};
        }
        left := left - {u};
      }
      HalfwayEnd(prev, current, snapshot, written);
    }

    /** Only rows that differ are written, and yet the snapshot becomes the whole list; unless saving it fails. */
    method TrackDeletedUsers(users: seq<User>, saved: bool) returns (written: set<string>)
      modifies this
      ensures State() == if saved then Track(old(State()), users) else Count(old(State()), users)
      ensures written == if saved then Differing(old(snapshot), Current(users)) else {}
    {
      hide Differing;
      var current := CurrentMap(users);
      var gone := snapshot.Keys - current.Keys;
      var added := SumOf(snapshot, gone);
      assert (map u | u in gone :: snapshot[u]) == Lost(snapshot, current);
      if added > 0 {
        deleted := deleted + added;
      }
      if !saved {
        return {};
      }
      written := WriteSnapshot(current);
    }

    method SumOf(m: Usage, names: set<string>) returns (sum: nat)
      requires names <= m.Keys
      ensures sum == Total(map u | u in names :: m[u])
    {
      sum := 0;
      var left := names;
      ghost var all := map u | u in names :: m[u];
      while left != {}
        invariant left <= names
        invariant sum + Total(map u | u in left :: m[u]) == Total(all)
        decreases |left|
      {
        var u :| u in left;
        ghost var rest := map u | u in left :: m[u];
        TotalWithout(rest, u);
        assert rest - {u} == map v | v in left - {u} :: m[v];
        sum, left := sum + m[u], left - {u};
      }
    }
  }

  // ---- whole runs ----

  datatype Event = Sync(read: Read) | Reset

  ghost function Step(r: Row, e: Event): Row {
    match e
    case Reset => r.(deleted := 0)
    case Sync(Failed(_)) => r
    case Sync(Partial(_, sold)) => r.(sold := sold + r.deleted)
    case Sync(Complete(_, users, sold)) => var t := Track(r, users); t.(sold := sold + t.deleted)
    case Sync(Unsaved(_, users, sold)) => Count(r, users).(sold := sold)
  }

  ghost function Run(r: Row, events: seq<Event>): Row {
    if events == [] then r else Step(Run(r, events[..|events| - 1]), events[|events| - 1])
  }

  predicate IsComplete(e: Event) { e.Sync? && e.read.Complete? }

  /** All users were told, and the bytes of those missing were added to the deleted ones. */
  predicate IsCounted(e: Event) { e.Sync? && (e.read.Complete? || e.read.Unsaved?) }

  /** The user list of the last complete read, or the one before the run. */
  function LastRead(first: Usage, events: seq<Event>): Usage {
    if events == [] then first
    else if IsComplete(events[|events| - 1]) then Current(events[|events| - 1].read.users)
    else LastRead(first, events[..|events| - 1])
  }

  /** Since the last reset, what the users missing at each counted read had used at the last complete one. */
  ghost function MissedSinceReset(r: Row, events: seq<Event>): nat {
    if events == [] then r.deleted
    else
      var before, e := events[..|events| - 1], events[|events| - 1];
      if e.Reset? then 0
      else if IsCounted(e) then
        MissedSinceReset(r, before) + Total(Lost(LastRead(r.snapshot, before), Current(e.read.users)))
      else MissedSinceReset(r, before)
  }

  /** Whatever reads fail or are cut short, and though only differing rows are written, the snapshot is the last
      complete list, and the deleted bytes are those of the users that went missing. */
  lemma {:induction false} RunTracks(r: Row, events: seq<Event>)
    ensures Run(r, events).snapshot == LastRead(r.snapshot, events)
    ensures Run(r, events).deleted == MissedSinceReset(r, events)
    decreases |events|
  {
    if events != [] {
      RunTracks(r, events[..|events| - 1]);
    }
  }

  /** How much more the users still there, and the new ones, have used. */
  ghost function Growth(prev: Usage, cur: Usage): int { Total(cur) - Total(Kept(prev, cur)) }

  ghost function Grown(first: Usage, events: seq<Event>): int {
    if events == [] then 0
    else
      var before, e := events[..|events| - 1], events[|events| - 1];
      Grown(first, before) + if IsComplete(e) then Growth(LastRead(first, before), Current(e.read.users)) else 0
  }

  /** What the users missing at a read whose snapshot could not be saved had used: it is counted again later. */
  ghost function CountedAt(first: Usage, before: seq<Event>, e: Event): nat {
    if e.Sync? && e.read.Unsaved? then Total(Lost(LastRead(first, before), Current(e.read.users))) else 0
  }

  ghost function Overcount(first: Usage, events: seq<Event>): nat {
    if events == [] then 0
    else
      var before, e := events[..|events| - 1], events[|events| - 1];
      Overcount(first, before) + CountedAt(first, before, e)
  }

  /** Between resets, what the snapshot and the deleted bytes hold together grows by exactly what was used, and by what
      was counted without being saved. */
  lemma {:induction false} TrafficConserved(r: Row, events: seq<Event>)
    requires forall i :: 0 <= i < |events| ==> !events[i].Reset?
    ensures Run(r, events).deleted + Total(Run(r, events).snapshot)
         == r.deleted + Total(r.snapshot) + Grown(r.snapshot, events) + Overcount(r.snapshot, events)
    decreases |events|
  {
    if events != [] {
      var before, e := events[..|events| - 1], events[|events| - 1];
      TrafficConserved(r, before);
      RunTracks(r, before);
      if IsComplete(e) {
        TotalSplits(Run(r, before).snapshot, Current(e.read.users));
      }
    }
  }

  /** So it grows by exactly what was used if and only if no user that had used anything was missing at a read whose
      snapshot could not be saved. */
  lemma {:induction false} ConservedUnlessUnsaved(r: Row, events: seq<Event>)
    requires forall i :: 0 <= i < |events| ==> !events[i].Reset?
    ensures Run(r, events).deleted + Total(Run(r, events).snapshot) == r.deleted + Total(r.snapshot) + Grown(r.snapshot, events)
            <==> forall i :: 0 <= i < |events| ==> CountedAt(r.snapshot, events[..i], events[i]) == 0
  {
    TrafficConserved(r, events);
    NoneOvercounted(r.snapshot, events);
  }

  lemma {:induction false} NoneOvercounted(first: Usage, events: seq<Event>)
    ensures Overcount(first, events) == 0 <==> forall i :: 0 <= i < |events| ==> CountedAt(first, events[..i], events[i]) == 0
    decreases |events|
  {
    hide CountedAt;
    if events != [] {
      var before, e := events[..|events| - 1], events[|events| - 1];
      NoneOvercounted(first, before);
      forall i | 0 <= i <= |before| ensures events[..i] == before[..i] {}
      assert before[..|before|] == before;
      if Overcount(first, events) == 0 {
        forall i | 0 <= i < |events| ensures CountedAt(first, events[..i], events[i]) == 0 {
          assert i < |before| ==> CountedAt(first, before[..i], before[i]) == 0;
        }
      } else if Overcount(first, before) != 0 {
        var i :| 0 <= i < |before| && CountedAt(first, before[..i], before[i]) != 0;
        assert CountedAt(first, events[..i], events[i]) != 0;
      } else {
        assert CountedAt(first, events[..|before|], events[|before|]) != 0;
      }
    }
  }

  function Repeated(e: Event, k: nat): seq<Event> {
    if k == 0 then [] else Repeated(e, k - 1) + [e]
  }

  /** The same users missing at k reads that cannot be saved, and then at one that can, are counted k + 1 times. */
  lemma {:induction false} CountedAgain(r: Row, users: seq<User>, admin: string, sold: nat, k: nat)
    ensures var d := Run(r, Repeated(Sync(Unsaved(admin, users, sold)), k) + [Sync(Complete(admin, users, sold))]);
            && d.deleted == r.deleted + (k + 1) * Total(Lost(r.snapshot, Current(users)))
            && d.snapshot == Current(users)
  {
    var e := Sync(Unsaved(admin, users, sold));
    CountedTimes(r, e, k);
    RunPush(r, Repeated(e, k), Sync(Complete(admin, users, sold)));
  }

  lemma {:induction false} OneMore(k: nat, n: nat)
    ensures k * n == (k - 1) * n + n
  {
  }

  lemma {:induction false} CountedTimes(r: Row, e: Event, k: nat)
    requires e.Sync? && e.read.Unsaved?
    ensures var d := Run(r, Repeated(e, k));
            d.snapshot == r.snapshot && d.deleted == r.deleted + k * Total(Lost(r.snapshot, Current(e.read.users)))
    decreases k
  {
    if k > 0 {
      CountedTimes(r, e, k - 1);
      RunPush(r, Repeated(e, k - 1), e);
      OneMore(k, Total(Lost(r.snapshot, Current(e.read.users))));
    }
  }

  /** At no complete read has a user still there used less than before. */
  ghost predicate NoneFalls(first: Usage, events: seq<Event>) {
    forall i :: 0 <= i < |events| && IsComplete(events[i]) ==>
      var prev, cur := LastRead(first, events[..i]), Current(events[i].read.users);
      forall u :: u in prev && u in cur ==> prev[u] <= cur[u]
  }

  /** So it never falls as long as no user's usage falls. */
  lemma {:induction false} TrafficNeverFalls(r: Row, events: seq<Event>)
    requires NoneFalls(r.snapshot, events) && forall i :: 0 <= i < |events| ==> !events[i].Reset?
    ensures r.deleted + Total(r.snapshot) <= Run(r, events).deleted + Total(Run(r, events).snapshot)
  {
    TrafficConserved(r, events);
    GrownPositive(r.snapshot, events);
  }

  lemma {:induction false} GrownPositive(first: Usage, events: seq<Event>)
    requires NoneFalls(first, events)
    ensures Grown(first, events) >= 0
    decreases |events|
  {
    if events != [] {
      var before, e := events[..|events| - 1], events[|events| - 1];
      assert NoneFalls(first, before) by {
        forall i | 0 <= i < |before| ensures events[..i] == before[..i] {}
      }
      GrownPositive(first, before);
      if IsComplete(e) {
        TotalMonotone(Kept(LastRead(first, before), Current(e.read.users)), Current(e.read.users));
      }
    }
  }

  // ---- all resellers ----

  function RowOf(rows: map<string, Row>, admin: string): Row {
    if admin in rows then rows[admin] else Row(map[], 0, 0)
  }

  /** A failed read leaves the row alone, and makes none. */
  ghost function SyncOne(rows: map<string, Row>, read: Read): map<string, Row> {
    if read.Failed? then rows else rows[read.admin := Step(RowOf(rows, read.admin), Sync(read))]
  }

  ghost function SyncEach(rows: map<string, Row>, report: seq<Read>): map<string, Row> {
    if report == [] then rows else SyncOne(SyncEach(rows, report[..|report| - 1]), report[|report| - 1])
  }

  /** Resellers missing from the report go, unless the report is empty. */
  ghost function SyncAll(rows: map<string, Row>, report: seq<Read>): map<string, Row> {
    var each := SyncEach(rows, report);
    if report == [] then each else map a | a in each && Named(report, a) :: each[a]
  }

  predicate Named(report: seq<Read>, admin: string) {
    exists i :: 0 <= i < |report| && report[i].admin == admin
  }

  ghost predicate NamedOnce(report: seq<Read>) {
    forall i, j :: 0 <= i < j < |report| ==> report[i].admin != report[j].admin
  }

  lemma {:induction false} EachRow(rows: map<string, Row>, report: seq<Read>, admin: string)
    requires NamedOnce(report)
    ensures !Named(report, admin) ==> (admin in SyncEach(rows, report) <==> admin in rows) && RowOf(SyncEach(rows, report), admin) == RowOf(rows, admin)
    ensures forall i :: 0 <= i < |report| && report[i].admin == admin ==>
              RowOf(SyncEach(rows, report), admin) == Step(RowOf(rows, admin), Sync(report[i]))
              && (admin in SyncEach(rows, report) <==> admin in rows || !report[i].Failed?)
    decreases |report|
  {
    if report != [] {
      var before, last := report[..|report| - 1], report[|report| - 1];
      EachRow(rows, before, admin);
      if last.admin == admin {
        assert !Named(before, admin);
      } else if Named(report, admin) {
        assert Named(before, admin);
      }
    }
  }

  /** One sync: an empty report changes nothing; otherwise the rows left are those in the report, a reseller whose
      read failed keeps its row as it was, and any other row takes one step of its own. */
  lemma {:induction false} SyncIsPerReseller(rows: map<string, Row>, report: seq<Read>, admin: string)
    requires NamedOnce(report)
    ensures report == [] ==> SyncAll(rows, report) == rows
    ensures report != [] && !Named(report, admin) ==> admin !in SyncAll(rows, report)
    ensures forall i :: 0 <= i < |report| && report[i].admin == admin ==>
              RowOf(SyncAll(rows, report), admin) == Step(RowOf(rows, admin), Sync(report[i]))
              && (admin in SyncAll(rows, report) <==> admin in rows || !report[i].Failed?)
  {
    EachRow(rows, report, admin);
  }

  /** The sold volume of every row that was read is what the panel says plus what was kept of deleted users; it is the
      panel's alone when the snapshot could not be saved. */
  lemma {:induction false} SoldIncludesDeleted(rows: map<string, Row>, report: seq<Read>, i: nat)
    requires NamedOnce(report) && i < |report| && !report[i].Failed?
    ensures report[i].admin in SyncAll(rows, report)
    ensures var row := SyncAll(rows, report)[report[i].admin];
            row.sold == report[i].sold + if report[i].Unsaved? then 0 else row.deleted
  {
    SyncIsPerReseller(rows, report, report[i].admin);
  }

  // ---- all resellers, over any reports and resets ----

  datatype Change = Report(report: seq<Read>) | ResetOf(admin: string)

  ghost function Changed(rows: map<string, Row>, c: Change): map<string, Row> {
    match c
    case Report(report) => SyncAll(rows, report)
    case ResetOf(admin) => if admin in rows then rows[admin := Step(rows[admin], Reset)] else rows
  }

  ghost function History(rows: map<string, Row>, changes: seq<Change>): map<string, Row> {
    if changes == [] then rows else Changed(History(rows, changes[..|changes| - 1]), changes[|changes| - 1])
  }

  /** What happened to one reseller since its row was last missing: whether it had a row then, that row or an empty
      one, and its reads and resets since. */
  datatype Life = Life(known: bool, start: Row, events: seq<Event>)

  function Grows(life: Life, c: Change, admin: string): Life {
    match c
    case ResetOf(a) => if a == admin then life.(events := life.events + [Reset]) else life
    case Report(report) =>
      if report == [] then life
      else
        match ReadOf(report, admin)
        case None => Life(false, Row(map[], 0, 0), [])
        case Some(read) => life.(events := life.events + [Sync(read)])
  }

  function LifeOf(rows: map<string, Row>, changes: seq<Change>, admin: string): Life {
    if changes == [] then Life(admin in rows, RowOf(rows, admin), [])
    else Grows(LifeOf(rows, changes[..|changes| - 1], admin), changes[|changes| - 1], admin)
  }

  function ReadOf(report: seq<Read>, admin: string): (r: Option<Read>)
    ensures r.Some? ==> r.value in report && r.value.admin == admin
    ensures r.None? <==> !Named(report, admin)
  {
    if report == [] then None
    else if report[0].admin == admin then Some(report[0])
    else
      assert forall i :: 0 <= i < |report| - 1 ==> report[i + 1] == report[1..][i];
      assert Named(report[1..], admin) ==> Named(report, admin);
      ReadOf(report[1..], admin)
  }

  ghost predicate AllNamedOnce(changes: seq<Change>) {
    forall i :: 0 <= i < |changes| && changes[i].Report? ==> NamedOnce(changes[i].report)
  }

  predicate WasRead(events: seq<Event>) {
    exists i :: 0 <= i < |events| && events[i].Sync? && !events[i].read.Failed?
  }

  lemma {:induction false} RunPush(r: Row, events: seq<Event>, e: Event)
    ensures Run(r, events + [e]) == Step(Run(r, events), e)
    ensures WasRead(events + [e]) <==> WasRead(events) || (e.Sync? && !e.read.Failed?)
  {
    assert (events + [e])[..|events|] == events;
    if WasRead(events) {
      var i :| 0 <= i < |events| && events[i].Sync? && !events[i].read.Failed?;
      assert (events + [e])[i] == events[i];
    }
    assert (events + [e])[|events|] == e;
  }

  /** The reseller's row is the run of its life, and it has one if it had or was read. */
  ghost predicate Lives(rows: map<string, Row>, life: Life, admin: string) {
    && RowOf(rows, admin) == Run(life.start, life.events)
    && (admin in rows <==> life.known || WasRead(life.events))
  }

  /** A reset is one more event; it makes no row. */
  lemma {:induction false} ResetLives(row: Row, life: Life)
    requires row == Run(life.start, life.events)
    ensures Run(life.start, life.events + [Reset]) == row.(deleted := 0)
    ensures WasRead(life.events + [Reset]) <==> WasRead(life.events)
  {
    RunPush(life.start, life.events, Reset);
  }

  lemma {:induction false} ReportLives(rows: map<string, Row>, life: Life, report: seq<Read>, admin: string)
    requires Lives(rows, life, admin) && NamedOnce(report)
    ensures Lives(Changed(rows, Report(report)), Grows(life, Report(report), admin), admin)
  {
    hide Step, SyncAll, NamedOnce, Run, WasRead;
    SyncIsPerReseller(rows, report, admin);
    if ReadOf(report, admin).Some? {
      var read := ReadOf(report, admin).value;
      var i :| 0 <= i < |report| && report[i] == read;
      RunPush(life.start, life.events, Sync(read));
    } else {
      NothingHappened(Row(map[], 0, 0));
    }
  }

  lemma {:induction false} NothingHappened(r: Row)
    ensures Run(r, []) == r && !WasRead([])
  {
  }

  /** Over any reports and resets of all resellers, each one's row is the run of its own reads and resets since it was
      last created, whatever happens to the others: so its snapshot is its last complete list, and its deleted bytes
      are those of its users that went missing since its last reset. */
  lemma {:induction false} EachHasItsOwnRun(rows: map<string, Row>, changes: seq<Change>, admin: string)
    requires AllNamedOnce(changes)
    ensures var life, row := LifeOf(rows, changes, admin), RowOf(History(rows, changes), admin);
            && row == Run(life.start, life.events)
            && (admin in History(rows, changes) <==> life.known || WasRead(life.events))
            && row.snapshot == LastRead(life.start.snapshot, life.events)
            && row.deleted == MissedSinceReset(life.start, life.events)
    decreases |changes|
  {
    hide LastRead, MissedSinceReset, Run, WasRead, NamedOnce, SyncAll, ReadOf;
    if changes == [] {
      NothingHappened(RowOf(rows, admin));
    } else {
      var before, c := changes[..|changes| - 1], changes[|changes| - 1];
      EachHasItsOwnRun(rows, before, admin);
      var h, life := History(rows, before), LifeOf(rows, before, admin);
      match c
      case ResetOf(a) => ResetLives(RowOf(h, admin), life);
      case Report(report) => ReportLives(h, life, report, admin);
    }
    RunTracks(LifeOf(rows, changes, admin).start, LifeOf(rows, changes, admin).events);
  }

  class SyncJob {
    var rows: map<string, Row>

    method SyncAdmins(report: seq<Read>)
      modifies this
      ensures rows == SyncAll(old(rows), report)
    {
      hide RowOf;
      for i := 0 to |report|
        invariant rows == SyncEach(old(rows), report[..i])
      {
        var read := report[i];
        assert report[..i + 1][..i] == report[..i];
        if read.Failed? {
          continue;
        }
        var before := RowOf(rows, read.admin);
        var admin := new Snapshots(before.(sold := read.sold));
        if read.Complete? || read.Unsaved? {
          var written := admin.TrackDeletedUsers(read.users, read.Complete?);
        }
        if admin.deleted > 0 && !read.Unsaved? {
          admin.sold := read.sold + admin.deleted;
        }
        rows := rows[read.admin := admin.State()];
      }
      assert report[..|report|] == report;
      if report != [] {
        rows := map a | a in rows && Named(report, a) :: rows[a];
      }
    }
  }
}
