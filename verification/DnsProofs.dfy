// What the calls of a run achieve: the exact records, never none, deletions last, nothing left for a second run.
module DnsProofs {
  import opened Basics
  import opened Dns

  // ---- what the calls do ----

  lemma {:induction false} RunConcat(z: Zone, a: seq<Call>, b: seq<Call>)
    ensures Run(z, a + b) == Run(Run(z, a), b)
    decreases |b|
  {
    if b == [] {
      assert a + b == a;
    } else {
      assert (a + b)[..|a + b| - 1] == a + b[..|b| - 1];
      RunConcat(z, a, b[..|b| - 1]);
    }
  }

  ghost predicate Has(z: Zone, id: nat, d: Data) {
    id in z.records && z.records[id] == d
  }

  /** After the first n records: only flags of first wanted records have changed, and those are right. */
  ghost predicate Flipped(z: Zone, ids: seq<nat>, w: Wish, n: nat, r: Zone)
    requires n <= |ids| && forall k :: 0 <= k < |ids| ==> ids[k] in z.records
  {
    && r.records.Keys == z.records.Keys && r.next == z.next
    && (forall id :: id in r.records ==> r.records[id].content == z.records[id].content)
    && (forall k :: 0 <= k < n && Keeper(z.records, ids, w, k) ==> Right(r.records[ids[k]], w))
    && (forall k :: 0 <= k < |ids| && !(k < n && Keeper(z.records, ids, w, k)) ==> r.records[ids[k]] == z.records[ids[k]])
  }

  lemma {:induction false} FlipStep(z: Zone, ids: seq<nat>, w: Wish, n: nat, r: Zone)
    requires Listing(z, ids) && n < |ids| && Flipped(z, ids, w, n, r) && Keeper(z.records, ids, w, n)
    ensures Flipped(z, ids, w, n + 1, Do(r, Patch(ids[n], w.proxied, w.ttl)))
  {
    hide Keep, Keeper;
    var d := Do(r, Patch(ids[n], w.proxied, w.ttl));
    assert d.records == r.records[ids[n] := r.records[ids[n]].(proxied := w.proxied, ttl := w.ttl)];
    forall k | 0 <= k < |ids| && k != n ensures d.records[ids[k]] == r.records[ids[k]] {
      assert ids[k] != ids[n];
    }
  }

  lemma {:induction false} FlipsEffect(z: Zone, ids: seq<nat>, w: Wish, n: nat)
    requires Listing(z, ids) && n <= |ids|
    ensures Flipped(z, ids, w, n, Run(z, Flips(z.records, ids, w, n)))
    decreases n
  {
    hide Keep, Keeper;
    if n > 0 {
      FlipsEffect(z, ids, w, n - 1);
      var before := Flips(z.records, ids, w, n - 1);
      var now := Flips(z.records, ids, w, n);
      if Keeper(z.records, ids, w, n - 1) && !Right(z.records[ids[n - 1]], w) {
        assert now[..|now| - 1] == before;
        FlipStep(z, ids, w, n - 1, Run(z, before));
      } else {
        assert now == before;
      }
    }
  }

  /** The old records deleted after m changes. */
  function Gone(spare: seq<nat>, missing: seq<string>, m: nat): seq<nat> {
    if |missing| <= m <= |spare| then spare[|missing|..m] else []
  }

  /** After m changes: the swapped records, the new ones, the deleted ones, and nothing else. */
  ghost predicate Changed(z: Zone, spare: seq<nat>, missing: seq<string>, w: Wish, m: nat, r: Zone) {
    && Valid(r)
    && r.next == z.next + (if |spare| < m <= |missing| then m - |spare| else 0)
    && (forall id :: id in r.records <==> (id in z.records && id !in Gone(spare, missing, m)) || z.next <= id < r.next)
    && (forall id :: id in z.records && id !in spare ==> Has(r, id, z.records[id]))
    && (forall j :: 0 <= j < m && j < |spare| && j < |missing| ==> Has(r, spare[j], Wanted(w, missing[j])))
    && (forall j :: |spare| <= j < m && j < |missing| ==> Has(r, z.next + j - |spare|, Wanted(w, missing[j])))
  }

  lemma {:induction false} ChangeStep(z: Zone, spare: seq<nat>, missing: seq<string>, w: Wish, m: nat, r: Zone)
    requires Valid(z) && NoDup(spare) && (forall id :: id in spare ==> id in z.records)
    requires m < Max(|spare|, |missing|) && Changed(z, spare, missing, w, m, r)
    ensures Changed(z, spare, missing, w, m + 1, Do(r, Change(spare, missing, w, m)))
  {
    hide NoDup;
    if m >= |missing| {
      DeleteStep(z, spare, missing, w, m, r);
    } else if m >= |spare| {
      PostStep(z, spare, missing, w, m, r);
    } else {
      PutStep(z, spare, missing, w, m, r);
    }
  }

  lemma {:induction false} PutStep(z: Zone, spare: seq<nat>, missing: seq<string>, w: Wish, m: nat, r: Zone)
    requires Valid(z) && NoDup(spare) && (forall id :: id in spare ==> id in z.records)
    requires m < |spare| && m < |missing| && Changed(z, spare, missing, w, m, r)
    ensures Changed(z, spare, missing, w, m + 1, Do(r, Put(spare[m], Wanted(w, missing[m]))))
  {
    var d := Do(r, Put(spare[m], Wanted(w, missing[m])));
    assert spare[m] in spare && spare[m] in z.records;
    assert Gone(spare, missing, m) == [] == Gone(spare, missing, m + 1);
    assert d.records == r.records[spare[m] := Wanted(w, missing[m])];
  }

  lemma {:induction false} PostStep(z: Zone, spare: seq<nat>, missing: seq<string>, w: Wish, m: nat, r: Zone)
    requires Valid(z) && NoDup(spare) && (forall id :: id in spare ==> id in z.records)
    requires |spare| <= m < |missing| && Changed(z, spare, missing, w, m, r)
    ensures Changed(z, spare, missing, w, m + 1, Do(r, Post(Wanted(w, missing[m]))))
  {
    assert Gone(spare, missing, m) == [] == Gone(spare, missing, m + 1);
  }

  lemma {:induction false} DeleteStep(z: Zone, spare: seq<nat>, missing: seq<string>, w: Wish, m: nat, r: Zone)
    requires Valid(z) && NoDup(spare) && (forall id :: id in spare ==> id in z.records)
    requires |missing| <= m < |spare| && Changed(z, spare, missing, w, m, r)
    ensures Changed(z, spare, missing, w, m + 1, Do(r, Delete(spare[m])))
  {
    assert Gone(spare, missing, m + 1) == Gone(spare, missing, m) + [spare[m]];
    assert spare[m] in spare;
  }

  lemma {:induction false} ChangesEffect(z: Zone, spare: seq<nat>, missing: seq<string>, w: Wish, m: nat)
    requires Valid(z) && NoDup(spare) && (forall id :: id in spare ==> id in z.records)
    requires m <= Max(|spare|, |missing|)
    ensures Changed(z, spare, missing, w, m, Run(z, Changes(spare, missing, w, m)))
    decreases m
  {
    hide NoDup;
    if m > 0 {
      ChangesEffect(z, spare, missing, w, m - 1);
      var now := Changes(spare, missing, w, m);
      assert now[..m - 1] == Changes(spare, missing, w, m - 1);
      ChangeStep(z, spare, missing, w, m - 1, Run(z, now[..m - 1]));
    }
  }

  // ---- the plan as a whole ----

  function SpareOf(z: Zone, ids: seq<nat>, w: Wish): seq<nat>
    requires forall k :: 0 <= k < |ids| ==> ids[k] in z.records
  {
    Spare(z.records, ids, Keep(z.records, ids, w, |ids|))
  }

  function MissingOf(z: Zone, ids: seq<nat>, w: Wish): seq<string>
    requires forall k :: 0 <= k < |ids| ==> ids[k] in z.records
  {
    Missing(w.want, Keep(z.records, ids, w, |ids|))
  }

  /** The state after the flags are right and m changes are made. */
  function After(z: Zone, ids: seq<nat>, w: Wish, m: nat): Zone
    requires forall k :: 0 <= k < |ids| ==> ids[k] in z.records
    requires m <= Max(|SpareOf(z, ids, w)|, |MissingOf(z, ids, w)|)
  {
    Run(Run(z, Flips(z.records, ids, w, |ids|)), Changes(SpareOf(z, ids, w), MissingOf(z, ids, w), w, m))
  }

  lemma {:induction false} ChangesPrefix(spare: seq<nat>, missing: seq<string>, w: Wish, m: nat, n: nat)
    requires m <= n <= Max(|spare|, |missing|)
    ensures Changes(spare, missing, w, n)[..m] == Changes(spare, missing, w, m)
    decreases n
  {
    if m < n {
      ChangesPrefix(spare, missing, w, m, n - 1);
      assert Changes(spare, missing, w, n)[..m] == Changes(spare, missing, w, n - 1)[..m];
    }
  }

  /** A part of the plan beyond the flag changes. */
  lemma {:induction false} PlanPrefix(z: Zone, ids: seq<nat>, w: Wish, m: nat)
    requires Listing(z, ids) && m <= Max(|SpareOf(z, ids, w)|, |MissingOf(z, ids, w)|)
    ensures |Flips(z.records, ids, w, |ids|)| + m <= |Plan(z, ids, w)|
    ensures Run(z, Plan(z, ids, w)[..|Flips(z.records, ids, w, |ids|)| + m]) == After(z, ids, w, m)
  {
    hide Keep, Spare, Missing, Flips, Run, Changes, NoDup;
    var flips := Flips(z.records, ids, w, |ids|);
    var spare, missing := SpareOf(z, ids, w), MissingOf(z, ids, w);
    ChangesPrefix(spare, missing, w, m, Max(|spare|, |missing|));
    assert Plan(z, ids, w)[..|flips| + m] == flips + Changes(spare, missing, w, m);
    RunConcat(z, flips, Changes(spare, missing, w, m));
  }

  lemma {:induction false} AfterEffect(z: Zone, ids: seq<nat>, w: Wish, m: nat) returns (z1: Zone)
    requires Valid(z) && Listing(z, ids) && m <= Max(|SpareOf(z, ids, w)|, |MissingOf(z, ids, w)|)
    ensures Flipped(z, ids, w, |ids|, z1) && Valid(z1)
    ensures Changed(z1, SpareOf(z, ids, w), MissingOf(z, ids, w), w, m, After(z, ids, w, m))
  {
    FlipsEffect(z, ids, w, |ids|);
    z1 := Run(z, Flips(z.records, ids, w, |ids|));
    ChangesEffect(z1, SpareOf(z, ids, w), MissingOf(z, ids, w), w, m);
  }

  lemma {:induction false} FirstKeeper(z: Zone, ids: seq<nat>, w: Wish, n: nat, c: string) returns (k: nat)
    requires n <= |ids| && (forall k :: 0 <= k < |ids| ==> ids[k] in z.records) && c in Keep(z.records, ids, w, n)
    ensures k < n && Keeper(z.records, ids, w, k) && z.records[ids[k]].content == c
    decreases n
  {
    if c in Keep(z.records, ids, w, n - 1) {
      k := FirstKeeper(z, ids, w, n - 1, c);
    } else {
      k := n - 1;
    }
  }

  ghost predicate Serves(z: Zone, c: string, w: Wish) {
    exists id :: id in z.records && z.records[id].content == c && Right(z.records[id], w)
  }

  lemma {:induction false} KeptServed(z: Zone, ids: seq<nat>, w: Wish, m: nat, c: string)
    requires Valid(z) && Listing(z, ids) && c in Keep(z.records, ids, w, |ids|)
    requires m <= Max(|SpareOf(z, ids, w)|, |MissingOf(z, ids, w)|)
    ensures Serves(After(z, ids, w, m), c, w)
  {
    hide After, Keep, Gone, Valid, NoDup;
    var z1 := AfterEffect(z, ids, w, m);
    var k := FirstKeeper(z, ids, w, |ids|, c);
    assert ids[k] !in SpareOf(z, ids, w) && Has(After(z, ids, w, m), ids[k], z1.records[ids[k]]);
  }

  lemma {:induction false} MadeServed(z: Zone, spare: seq<nat>, missing: seq<string>, w: Wish, m: nat, r: Zone, j: nat)
    requires j < |missing| <= m <= Max(|spare|, |missing|) && Changed(z, spare, missing, w, m, r)
    ensures Serves(r, missing[j], w)
  {
    hide Gone, NoDup, Max;
    if j < |spare| {
      assert Has(r, spare[j], Wanted(w, missing[j]));
    } else {
      assert Has(r, z.next + j - |spare|, Wanted(w, missing[j]));
    }
  }

  /** Once as many changes are made as addresses were missing, every wanted address has a right record. */
  lemma {:induction false} AllServed(z: Zone, ids: seq<nat>, w: Wish, m: nat, c: string)
    requires Valid(z) && Listing(z, ids) && c in w.want
    requires |MissingOf(z, ids, w)| <= m <= Max(|SpareOf(z, ids, w)|, |MissingOf(z, ids, w)|)
    ensures Serves(After(z, ids, w, m), c, w)
  {
    hide After, Keep, Serves, Valid, NoDup, Changed, Flipped, Max;
    if c in Keep(z.records, ids, w, |ids|) {
      KeptServed(z, ids, w, m, c);
    } else {
      var spare, missing := SpareOf(z, ids, w), MissingOf(z, ids, w);
      var j :| 0 <= j < |missing| && missing[j] == c;
      var z1 := AfterEffect(z, ids, w, m);
      MadeServed(z1, spare, missing, w, m, After(z, ids, w, m), j);
    }
  }

  /** Deletions come last: when one is made, every wanted address is already served. */
  lemma {:induction false} DeletesComeLast(z: Zone, ids: seq<nat>, w: Wish, n: nat)
    requires Valid(z) && Listing(z, ids) && n < |Plan(z, ids, w)| && Plan(z, ids, w)[n].Delete?
    ensures forall c :: c in w.want ==> Serves(Run(z, Plan(z, ids, w)[..n]), c, w)
  {
    hide Keep, Spare, Missing, Flips, Run, NoDup, Valid, Serves;
    var flips := Flips(z.records, ids, w, |ids|);
    OnlyPatches(z, ids, w, |ids|);
    var spare, missing := SpareOf(z, ids, w), MissingOf(z, ids, w);
    var m := n - |flips|;
    ChangesPrefix(spare, missing, w, m + 1, Max(|spare|, |missing|));
    assert Plan(z, ids, w)[n] == Changes(spare, missing, w, m + 1)[m] == Change(spare, missing, w, m);
    PlanPrefix(z, ids, w, m);
    forall c | c in w.want ensures Serves(After(z, ids, w, m), c, w) {
      AllServed(z, ids, w, m, c);
    }
  }

  lemma {:induction false} OnlyPatches(z: Zone, ids: seq<nat>, w: Wish, n: nat)
    requires n <= |ids| && forall k :: 0 <= k < |ids| ==> ids[k] in z.records
    ensures forall i :: 0 <= i < |Flips(z.records, ids, w, n)| ==> Flips(z.records, ids, w, n)[i].Patch?
    decreases n
  {
    if n > 0 {
      OnlyPatches(z, ids, w, n - 1);
    }
  }

  lemma {:induction false} PatchesKeepAll(z: Zone, calls: seq<Call>)
    requires forall i :: 0 <= i < |calls| ==> calls[i].Patch?
    ensures Run(z, calls).records.Keys == z.records.Keys
    decreases |calls|
  {
    if calls != [] {
      PatchesKeepAll(z, calls[..|calls| - 1]);
    }
  }

  /** The name, once it has a record, has one after every call, whichever call is the last to succeed. */
  lemma {:induction false} NeverEmpty(z: Zone, ids: seq<nat>, w: Wish, n: nat)
    requires Valid(z) && Listing(z, ids) && w.want != [] && n <= |Plan(z, ids, w)|
    requires z.records != map[] || n > 0
    ensures Run(z, Plan(z, ids, w)[..n]).records != map[]
  {
    hide Keep, Spare, Missing, NoDup, Valid;
    var flips := Flips(z.records, ids, w, |ids|);
    var spare, missing := SpareOf(z, ids, w), MissingOf(z, ids, w);
    OnlyPatches(z, ids, w, |ids|);
    if n <= |flips| {
      assert Plan(z, ids, w)[..n] == flips[..n];
      PatchesKeepAll(z, flips[..n]);
      NoFlips(z, ids, w);
    } else {
      var m := n - |flips|;
      PlanPrefix(z, ids, w, m);
      NotEmptied(z, ids, w, m);
    }
  }

  lemma {:induction false} NoFlips(z: Zone, ids: seq<nat>, w: Wish)
    requires Listing(z, ids)
    ensures z.records == map[] ==> Flips(z.records, ids, w, |ids|) == []
  {
    if ids != [] {
      assert ids[0] in z.records;
    }
  }

  lemma {:induction false} NotEmptied(z: Zone, ids: seq<nat>, w: Wish, m: nat)
    requires Valid(z) && Listing(z, ids) && w.want != []
    requires 0 < m <= Max(|SpareOf(z, ids, w)|, |MissingOf(z, ids, w)|)
    ensures After(z, ids, w, m).records != map[]
  {
    hide After, Keep, Valid, NoDup, Spare, Missing, Gone, Flipped;
    var spare, missing := SpareOf(z, ids, w), MissingOf(z, ids, w);
    if m >= |missing| {
      AllServed(z, ids, w, m, w.want[0]);
    } else {
      var z1 := AfterEffect(z, ids, w, m);
      if spare == [] {
        assert Has(After(z, ids, w, m), z1.next + 0 - |spare|, Wanted(w, missing[0]));
      } else {
        assert Has(After(z, ids, w, m), spare[0], Wanted(w, missing[0]));
      }
    }
  }

  // ---- what the run achieves ----

  /** No wanted address has two records. */
  ghost predicate NoRepeats(z: Zone, w: Wish) {
    forall a, b :: a in z.records && b in z.records && a != b && z.records[a].content == z.records[b].content ==>
      z.records[a].content !in w.want
  }

  /** The records are exactly the wish: one right record for each wanted address and none for another. */
  ghost predicate Exact(z: Zone, w: Wish) {
    && (forall id :: id in z.records ==> z.records[id].content in w.want && Right(z.records[id], w))
    && (forall a, b :: a in z.records && b in z.records && z.records[a].content == z.records[b].content ==> a == b)
    && (forall c :: c in w.want ==> Serves(z, c, w))
  }

  /** Where a record of the final state comes from. */
  datatype Origin = Kept | Swapped(j: nat) | Created(j: nat)

  ghost predicate From(z: Zone, ids: seq<nat>, w: Wish, z1: Zone, id: nat, o: Origin)
    requires forall k :: 0 <= k < |ids| ==> ids[k] in z.records
  {
    var spare, missing := SpareOf(z, ids, w), MissingOf(z, ids, w);
    match o
    case Kept => id in z.records && id !in spare
    case Swapped(j) => j < |spare| && j < |missing| && id == spare[j]
    case Created(j) => |spare| <= j < |missing| && id == z1.next + j - |spare|
  }

  function Last(z: Zone, ids: seq<nat>, w: Wish): Zone
    requires forall k :: 0 <= k < |ids| ==> ids[k] in z.records
  {
    After(z, ids, w, Max(|SpareOf(z, ids, w)|, |MissingOf(z, ids, w)|))
  }

  /** The whole plan leads to the last state. */
  lemma {:induction false} PlanRun(z: Zone, ids: seq<nat>, w: Wish)
    requires Listing(z, ids)
    ensures Run(z, Plan(z, ids, w)) == Last(z, ids, w)
  {
    hide Keep, Spare, Missing, Flips, Run, NoDup;
    var m := Max(|SpareOf(z, ids, w)|, |MissingOf(z, ids, w)|);
    PlanPrefix(z, ids, w, m);
    assert Plan(z, ids, w)[..|Flips(z.records, ids, w, |ids|)| + m] == Plan(z, ids, w);
  }

  /** z1 is z with its flags right, and the last state is z1 with all changes made. */
  ghost predicate LastFrom(z: Zone, ids: seq<nat>, w: Wish, z1: Zone)
    requires forall k :: 0 <= k < |ids| ==> ids[k] in z.records
  {
    var spare, missing := SpareOf(z, ids, w), MissingOf(z, ids, w);
    Flipped(z, ids, w, |ids|, z1) && Changed(z1, spare, missing, w, Max(|spare|, |missing|), Last(z, ids, w))
  }

  lemma {:induction false} Deleted(spare: seq<nat>, missing: seq<string>, j: nat)
    requires |missing| <= j < |spare|
    ensures spare[j] in Gone(spare, missing, Max(|spare|, |missing|))
  {
    assert Gone(spare, missing, |spare|)[j - |missing|] == spare[j];
  }

  /** Every record of the last state was kept, was a spare one, or is new; and it is as its origin says. */
  lemma {:induction false} Traced(z: Zone, ids: seq<nat>, w: Wish, z1: Zone, id: nat) returns (o: Origin)
    requires Valid(z) && Listing(z, ids) && LastFrom(z, ids, w, z1) && id in Last(z, ids, w).records
    ensures From(z, ids, w, z1, id, o)
    ensures match o
            case Kept => Has(Last(z, ids, w), id, z1.records[id]) && z.records[id].content in Keep(z.records, ids, w, |ids|)
            case Swapped(j) => Has(Last(z, ids, w), id, Wanted(w, MissingOf(z, ids, w)[j]))
            case Created(j) => Has(Last(z, ids, w), id, Wanted(w, MissingOf(z, ids, w)[j]))
  {
    hide Last, Keep, Valid, Spare, Missing, Gone, NoDup, Keeper, Right;
    var r, spare, missing := Last(z, ids, w), SpareOf(z, ids, w), MissingOf(z, ids, w);
    if id in z.records && id in spare {
      var j :| 0 <= j < |spare| && spare[j] == id;
      o := Swapped(j);
      if j >= |missing| {
        Deleted(spare, missing, j);
      }
    } else if id in z.records {
      o := Kept;
    } else {
      o := Created(id - z1.next + |spare|);
      assert Has(r, z1.next + o.j - |spare|, Wanted(w, missing[o.j]));
    }
  }

  /** No record of another address is left, and without repeats those left are right and differ. */
  lemma {:induction false} OnlyWanted(z: Zone, ids: seq<nat>, w: Wish, z1: Zone, id: nat)
    requires Valid(z) && Listing(z, ids) && LastFrom(z, ids, w, z1) && id in Last(z, ids, w).records
    ensures Last(z, ids, w).records[id].content in w.want
    ensures NoRepeats(z, w) ==> Right(Last(z, ids, w).records[id], w)
  {
    hide Last, Valid, Spare, Missing, Gone, Changed, NoDup;
    var o := Traced(z, ids, w, z1, id);
    if NoRepeats(z, w) && o.Kept? {
      var k := FirstKeeper(z, ids, w, |ids|, z.records[id].content);
      assert ids[k] == id;
    }
  }

  lemma {:induction false} Differ(z: Zone, ids: seq<nat>, w: Wish, z1: Zone, a: nat, b: nat)
    requires Valid(z) && Listing(z, ids) && NoDup(w.want) && LastFrom(z, ids, w, z1)
    requires a in Last(z, ids, w).records && b in Last(z, ids, w).records
    requires NoRepeats(z, w) && Last(z, ids, w).records[a].content == Last(z, ids, w).records[b].content
    ensures a == b
  {
    hide Last, Valid, Spare, Missing, Keep, Keeper, Gone, Changed;
    var missing := MissingOf(z, ids, w);
    var p := Traced(z, ids, w, z1, a);
    var q := Traced(z, ids, w, z1, b);
    assert !p.Kept? ==> missing[p.j] in missing;
    assert !q.Kept? ==> missing[q.j] in missing;
  }

  /** The last state has all wanted addresses and no other; and it is exact without repeats. */
  lemma {:induction false} LastServes(z: Zone, ids: seq<nat>, w: Wish)
    requires Valid(z) && Listing(z, ids) && NoDup(w.want)
    ensures forall id :: id in Last(z, ids, w).records ==> Last(z, ids, w).records[id].content in w.want
    ensures forall c :: c in w.want ==> Serves(Last(z, ids, w), c, w)
    ensures NoRepeats(z, w) ==> Exact(Last(z, ids, w), w)
  {
    hide Last, Keep, Keeper, Spare, Missing, Gone, NoDup, Valid, Right, Serves, NoRepeats, Flipped, Changed;
    LastIs(z, ids, w);
    var r, spare, missing := Last(z, ids, w), SpareOf(z, ids, w), MissingOf(z, ids, w);
    var z1 := AfterEffect(z, ids, w, Max(|spare|, |missing|));
    forall id | id in r.records
      ensures r.records[id].content in w.want && (NoRepeats(z, w) ==> Right(r.records[id], w))
    {
      OnlyWanted(z, ids, w, z1, id);
    }
    forall c | c in w.want ensures Serves(r, c, w) {
      AllServed(z, ids, w, Max(|spare|, |missing|), c);
    }
    forall a, b | NoRepeats(z, w) && a in r.records && b in r.records && r.records[a].content == r.records[b].content
      ensures a == b
    {
      Differ(z, ids, w, z1, a, b);
    }
  }

  /** Two records of one wanted address both stay. */
  lemma {:induction false} RepeatsStay(z: Zone, ids: seq<nat>, w: Wish, a: nat, b: nat)
    requires Valid(z) && Listing(z, ids) && a in z.records && b in z.records && a != b
    requires z.records[a].content == z.records[b].content && z.records[a].content in w.want
    ensures !Exact(Last(z, ids, w), w)
  {
    hide Last, Keep, Keeper, Spare, Missing, Gone, NoDup, Valid, Right, Serves, Flipped, Changed;
    LastIs(z, ids, w);
    var z1 := AfterEffect(z, ids, w, Max(|SpareOf(z, ids, w)|, |MissingOf(z, ids, w)|));
    StaysWanted(z, ids, w, z1, a);
    StaysWanted(z, ids, w, z1, b);
  }

  /** The run ends with exactly the wanted addresses and flags if and only if no wanted address had two records. */
  lemma {:induction false} Reconciled(z: Zone, ids: seq<nat>, w: Wish)
    requires Valid(z) && Listing(z, ids) && NoDup(w.want)
    ensures Exact(Run(z, Plan(z, ids, w)), w) <==> NoRepeats(z, w)
    ensures var r := Run(z, Plan(z, ids, w));
            && (forall id :: id in r.records ==> r.records[id].content in w.want)
            && (forall c :: c in w.want ==> Serves(r, c, w))
  {
    hide Last, Plan, Run, Exact, Serves, Valid, NoDup;
    PlanRun(z, ids, w);
    LastServes(z, ids, w);
    if !NoRepeats(z, w) {
      var a, b :| a in z.records && b in z.records && a != b
                  && z.records[a].content == z.records[b].content && z.records[a].content in w.want;
      RepeatsStay(z, ids, w, a, b);
    }
  }

  lemma {:induction false} LastIs(z: Zone, ids: seq<nat>, w: Wish)
    requires Listing(z, ids)
    ensures Last(z, ids, w) == After(z, ids, w, Max(|SpareOf(z, ids, w)|, |MissingOf(z, ids, w)|))
  {
    hide After, Keep, Spare, Missing;
  }

  lemma {:induction false} StaysWanted(z: Zone, ids: seq<nat>, w: Wish, z1: Zone, id: nat)
    requires Valid(z) && Listing(z, ids) && LastFrom(z, ids, w, z1) && id in z.records && z.records[id].content in w.want
    ensures id in Last(z, ids, w).records && Last(z, ids, w).records[id].content == z.records[id].content
  {
    hide Last, Valid, Keeper, Missing, Gone, Right;
    var k :| 0 <= k < |ids| && ids[k] == id;
    assert z.records[ids[k]].content in Keep(z.records, ids, w, |ids|);
    assert Has(Last(z, ids, w), id, z1.records[id]);
  }

  /** A second run, however the records are listed to it, creates, replaces and deletes nothing; without repeats it makes no call. */
  lemma {:induction false} SecondRun(z: Zone, ids: seq<nat>, w: Wish, again: seq<nat>)
    requires Valid(z) && Listing(z, ids) && NoDup(w.want) && Listing(Run(z, Plan(z, ids, w)), again)
    ensures forall i :: 0 <= i < |Plan(Run(z, Plan(z, ids, w)), again, w)| ==> Plan(Run(z, Plan(z, ids, w)), again, w)[i].Patch?
    ensures NoRepeats(z, w) ==> Plan(Run(z, Plan(z, ids, w)), again, w) == []
  {
    Reconciled(z, ids, w);
    Settled(Run(z, Plan(z, ids, w)), again, w);
  }

  lemma {:induction false} Settled(r: Zone, ids: seq<nat>, w: Wish)
    requires Listing(r, ids)
    requires forall id :: id in r.records ==> r.records[id].content in w.want
    requires forall c :: c in w.want ==> Serves(r, c, w)
    ensures forall i :: 0 <= i < |Plan(r, ids, w)| ==> Plan(r, ids, w)[i].Patch?
    ensures Exact(r, w) ==> Plan(r, ids, w) == []
  {
    hide Keep, Spare, Missing;
    var keep := Keep(r.records, ids, w, |ids|);
    forall id | id in ids ensures r.records[id].content in keep {
      var k :| 0 <= k < |ids| && ids[k] == id;
      assert r.records[ids[k]].content in keep;
    }
    forall c | c in w.want ensures c in keep {
      var id :| id in r.records && r.records[id].content == c;
      assert id in ids;
    }
    OnlyPatches(r, ids, w, |ids|);
    if Exact(r, w) {
      RightAlready(r, ids, w, |ids|);
    }
  }

  lemma {:induction false} RightAlready(r: Zone, ids: seq<nat>, w: Wish, n: nat)
    requires Listing(r, ids) && n <= |ids| && forall id :: id in r.records ==> Right(r.records[id], w)
    ensures Flips(r.records, ids, w, n) == []
  {
    if n > 0 {
      RightAlready(r, ids, w, n - 1);
    }
  }

  function ToSet<T>(s: seq<T>): set<T> { set x | x in s }

  lemma {:induction false} Elements<T>(s: seq<T>)
    requires NoDup(s)
    ensures |ToSet(s)| == |s|
  {
    if s != [] {
      var n := |s| - 1;
      Elements(s[..n]);
      assert ToSet(s) == ToSet(s[..n]) + {s[n]};
    }
  }

  function Unserved(z: Zone, w: Wish): set<string> {
    set c | c in w.want && forall id :: id in z.records ==> z.records[id].content != c
  }

  function Unwanted(z: Zone, w: Wish): set<nat> {
    set id | id in z.records && z.records[id].content !in w.want
  }

  /** Besides the flag changes, the calls number the addresses without a record or the records without a wanted
      address, whichever are more. */
  lemma {:induction false} CallCount(z: Zone, ids: seq<nat>, w: Wish)
    requires Listing(z, ids) && NoDup(w.want)
    ensures |Plan(z, ids, w)| - |Flips(z.records, ids, w, |ids|)| == Max(|Unserved(z, w)|, |Unwanted(z, w)|)
  {
    hide Keep, Spare, Missing;
    var keep := Keep(z.records, ids, w, |ids|);
    var spare, missing := SpareOf(z, ids, w), MissingOf(z, ids, w);
    KeepIs(z, ids, w);
    Elements(spare);
    Elements(missing);
    assert ToSet(spare) == Unwanted(z, w);
    assert ToSet(missing) == Unserved(z, w);
  }

  lemma {:induction false} KeepIs(z: Zone, ids: seq<nat>, w: Wish)
    requires Listing(z, ids)
    ensures forall c :: c in Keep(z.records, ids, w, |ids|) ==> c in w.want
    ensures forall id :: id in z.records && z.records[id].content in w.want ==> z.records[id].content in Keep(z.records, ids, w, |ids|)
    ensures forall c :: c in Keep(z.records, ids, w, |ids|) ==> exists id :: id in z.records && z.records[id].content == c
  {
    var keep := Keep(z.records, ids, w, |ids|);
    forall id | id in z.records && z.records[id].content in w.want ensures z.records[id].content in keep {
      var k :| 0 <= k < |ids| && ids[k] == id;
    }
  }

  lemma {:induction false} AfterStep(z: Zone, ids: seq<nat>, w: Wish, m: nat)
    requires Listing(z, ids) && m < Max(|SpareOf(z, ids, w)|, |MissingOf(z, ids, w)|)
    ensures After(z, ids, w, m + 1) == Do(After(z, ids, w, m), Change(SpareOf(z, ids, w), MissingOf(z, ids, w), w, m))
  {
    hide Keep, Spare, Missing, Flips, NoDup;
    var spare, missing := SpareOf(z, ids, w), MissingOf(z, ids, w);
    assert Changes(spare, missing, w, m + 1)[..m] == Changes(spare, missing, w, m);
  }

  /** The same, call by call. */
  lemma {:induction false} NextChange(z: Zone, ids: seq<nat>, w: Wish, m: nat)
    requires Listing(z, ids) && m < Max(|SpareOf(z, ids, w)|, |MissingOf(z, ids, w)|)
    ensures var spare, missing, d := SpareOf(z, ids, w), MissingOf(z, ids, w), After(z, ids, w, m);
            After(z, ids, w, m + 1) ==
              if m >= |missing| then Do(d, Delete(spare[m]))
              else if m < |spare| then Do(d, Put(spare[m], Wanted(w, missing[m])))
              else Do(d, Post(Wanted(w, missing[m])))
  {
    hide Spare, Missing, Do, After;
    AfterStep(z, ids, w, m);
  }

  lemma {:induction false} PlanStarts(z: Zone, ids: seq<nat>, w: Wish)
    requires Listing(z, ids)
    ensures var flips := Flips(z.records, ids, w, |ids|);
            && |Plan(z, ids, w)| == |flips| + Max(|SpareOf(z, ids, w)|, |MissingOf(z, ids, w)|)
            && forall b: nat :: b <= |flips| ==> Plan(z, ids, w)[..b] == flips[..b]
  {
    hide Keep, Spare, Missing, Flips, Changes, NoDup;
  }

  lemma {:induction false} FlipsPrefix(records: map<nat, Data>, ids: seq<nat>, w: Wish, m: nat, n: nat)
    requires m <= n <= |ids| && forall k :: 0 <= k < |ids| ==> ids[k] in records
    ensures |Flips(records, ids, w, m)| <= |Flips(records, ids, w, n)|
    ensures Flips(records, ids, w, n)[..|Flips(records, ids, w, m)|] == Flips(records, ids, w, m)
    decreases n
  {
    if m < n {
      FlipsPrefix(records, ids, w, m, n - 1);
      assert Flips(records, ids, w, n)[..|Flips(records, ids, w, m)|]
          == Flips(records, ids, w, n - 1)[..|Flips(records, ids, w, m)|];
    }
  }

  /** One turn of the loop over the flags. */
  lemma {:induction false} FlipsTurn(z: Zone, records: map<nat, Data>, ids: seq<nat>, w: Wish, n: nat)
    requires n < |ids| && forall k :: 0 <= k < |ids| ==> ids[k] in records
    ensures var before, now := Flips(records, ids, w, n), Flips(records, ids, w, n + 1);
            if Keeper(records, ids, w, n) && !Right(records[ids[n]], w) then
              |now| == |before| + 1 && Run(z, now) == Do(Run(z, before), Patch(ids[n], w.proxied, w.ttl))
            else now == before
  {
    hide Keeper;
    var before, now := Flips(records, ids, w, n), Flips(records, ids, w, n + 1);
    if Keeper(records, ids, w, n) && !Right(records[ids[n]], w) {
      assert now[..|now| - 1] == before;
    }
  }

  lemma {:induction false} FlipsNone(z: Zone, records: map<nat, Data>, ids: seq<nat>, w: Wish)
    requires forall k :: 0 <= k < |ids| ==> ids[k] in records
    ensures Flips(records, ids, w, 0) == [] && Run(z, []) == z
  {
  }
}
