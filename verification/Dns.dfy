// Making the A records of a name exactly the wanted addresses, one API call at a time.
module Dns {
  import opened Basics

  datatype Data = Data(content: string, proxied: bool, ttl: int)

  /** The A records of the name, by id; the server gives the next free id to a new one. */
  datatype Zone = Zone(records: map<nat, Data>, next: nat)

  datatype Call = Patch(id: nat, proxied: bool, ttl: int) | Put(id: nat, data: Data) | Post(data: Data) | Delete(id: nat)

  datatype Wish = Wish(want: seq<string>, proxied: bool, ttl: int)

  ghost predicate Valid(z: Zone) {
    forall id :: id in z.records ==> id < z.next
  }

  function Do(z: Zone, c: Call): Zone {
    match c
    case Patch(id, proxied, ttl) =>
      if id in z.records then z.(records := z.records[id := z.records[id].(proxied := proxied, ttl := ttl)]) else z
    case Put(id, data) => if id in z.records then z.(records := z.records[id := data]) else z
    case Post(data) => Zone(z.records[z.next := data], z.next + 1)
    case Delete(id) => z.(records := z.records - {id})
  }

  function Run(z: Zone, calls: seq<Call>): Zone {
    if calls == [] then z else Do(Run(z, calls[..|calls| - 1]), calls[|calls| - 1])
  }

  /** The records as the API lists them, in any order. */
  ghost predicate Listing(z: Zone, ids: seq<nat>) {
    NoDup(ids) && (forall id :: id in ids <==> id in z.records) && (forall k :: 0 <= k < |ids| ==> ids[k] in z.records)
  }

  // ---- the calls, as a function of the listing ----

  function Wanted(w: Wish, content: string): Data { Data(content, w.proxied, w.ttl) }

  predicate Right(d: Data, w: Wish) {
    d.proxied == w.proxied && (w.proxied || d.ttl == w.ttl)
  }

  /** The wanted addresses among the first n records. */
  function Keep(records: map<nat, Data>, ids: seq<nat>, w: Wish, n: nat): (keep: set<string>)
    requires n <= |ids| && forall k :: 0 <= k < |ids| ==> ids[k] in records
    ensures forall c :: c in keep <==> c in w.want && exists k :: 0 <= k < n && records[ids[k]].content == c
  {
    if n == 0 then {}
    else
      var c := records[ids[n - 1]].content;
      if c in w.want then Keep(records, ids, w, n - 1) + {c} else Keep(records, ids, w, n - 1)
  }

  /** The first record of a wanted address. */
  predicate Keeper(records: map<nat, Data>, ids: seq<nat>, w: Wish, k: nat)
    requires k < |ids| && forall j :: 0 <= j < |ids| ==> ids[j] in records
  {
    records[ids[k]].content in w.want && records[ids[k]].content !in Keep(records, ids, w, k)
  }

  function Flips(records: map<nat, Data>, ids: seq<nat>, w: Wish, n: nat): seq<Call>
    requires n <= |ids| && forall k :: 0 <= k < |ids| ==> ids[k] in records
  {
    if n == 0 then []
    else
      Flips(records, ids, w, n - 1) +
      if Keeper(records, ids, w, n - 1) && !Right(records[ids[n - 1]], w) then [Patch(ids[n - 1], w.proxied, w.ttl)] else []
  }

  function Spare(records: map<nat, Data>, ids: seq<nat>, keep: set<string>): (spare: seq<nat>)
    requires forall k :: 0 <= k < |ids| ==> ids[k] in records
    ensures forall id :: id in spare <==> id in ids && records[id].content !in keep
    ensures NoDup(ids) ==> NoDup(spare)
    ensures (forall id :: id in ids ==> records[id].content in keep) ==> spare == []
  {
    if ids == [] then []
    else if records[ids[0]].content !in keep then [ids[0]] + Spare(records, ids[1..], keep)
    else Spare(records, ids[1..], keep)
  }

  function Missing(want: seq<string>, keep: set<string>): (missing: seq<string>)
    ensures forall c :: c in missing <==> c in want && c !in keep
    ensures NoDup(want) ==> NoDup(missing)
    ensures (forall c :: c in want ==> c in keep) ==> missing == []
  {
    if want == [] then []
    else if want[0] !in keep then [want[0]] + Missing(want[1..], keep)
    else Missing(want[1..], keep)
  }

  function Change(spare: seq<nat>, missing: seq<string>, w: Wish, j: nat): Call
    requires j < |spare| || j < |missing|
  {
    if j < |missing| then
      if j < |spare| then Put(spare[j], Wanted(w, missing[j])) else Post(Wanted(w, missing[j]))
    else Delete(spare[j])
  }

  function Changes(spare: seq<nat>, missing: seq<string>, w: Wish, m: nat): (calls: seq<Call>)
    requires m <= Max(|spare|, |missing|)
    ensures |calls| == m
  {
    if m == 0 then [] else Changes(spare, missing, w, m - 1) + [Change(spare, missing, w, m - 1)]
  }

  function Plan(z: Zone, ids: seq<nat>, w: Wish): seq<Call>
    requires forall k :: 0 <= k < |ids| ==> ids[k] in z.records
  {
    var keep := Keep(z.records, ids, w, |ids|);
    var spare, missing := Spare(z.records, ids, keep), Missing(w.want, keep);
    Flips(z.records, ids, w, |ids|) + Changes(spare, missing, w, Max(|spare|, |missing|))
  }
}
