// The run itself, which stops at the first call that fails.
module DnsClient {
  import opened Basics
  import opened Dns
  import opened DnsProofs

  /** The API, some call of which may fail: only the first `budget` changes go through. */
  class Client {
    var records: map<nat, Data>
    var next: nat
    var budget: nat

    ghost function State(): Zone
      reads this
    {
      Zone(records, next)
    }

    method PatchRecord(id: nat, proxied: bool, ttl: int) returns (ok: bool)
      modifies this
      ensures ok == (old(budget) > 0)
      ensures ok ==> State() == Do(old(State()), Patch(id, proxied, ttl)) && budget == old(budget) - 1
      ensures !ok ==> State() == old(State()) && budget == 0
    {
      ok := budget > 0;
      if ok {
        budget := budget - 1;
        if id in records {
          records := records[id := records[id].(proxied := proxied, ttl := ttl)];
        }
      }
    }

    method PutRecord(id: nat, data: Data) returns (ok: bool)
      modifies this
      ensures ok == (old(budget) > 0)
      ensures ok ==> State() == Do(old(State()), Put(id, data)) && budget == old(budget) - 1
      ensures !ok ==> State() == old(State()) && budget == 0
    {
      ok := budget > 0;
      if ok {
        budget := budget - 1;
        if id in records {
          records := records[id := data];
        }
      }
    }

    method PostRecord(data: Data) returns (ok: bool)
      modifies this
      ensures ok == (old(budget) > 0)
      ensures ok ==> State() == Do(old(State()), Post(data)) && budget == old(budget) - 1
      ensures !ok ==> State() == old(State()) && budget == 0
    {
      ok := budget > 0;
      if ok {
        budget, records, next := budget - 1, records[next := data], next + 1;
      }
    }

    method DeleteRecord(id: nat) returns (ok: bool)
      modifies this
      ensures ok == (old(budget) > 0)
      ensures ok ==> State() == Do(old(State()), Delete(id)) && budget == old(budget) - 1
      ensures !ok ==> State() == old(State()) && budget == 0
    {
      ok := budget > 0;
      if ok {
        budget, records := budget - 1, records - {id};
      }
    }

    /** The first loop: which records are right already, and which need only their flags. */
    method FlipFlags(have: map<nat, Data>, ids: seq<nat>, w: Wish) returns (keep: set<string>, ok: bool)
      requires forall k :: 0 <= k < |ids| ==> ids[k] in have
      modifies this
      ensures ok <==> old(budget) >= |Flips(have, ids, w, |ids|)|
      ensures ok ==> keep == Keep(have, ids, w, |ids|)
      ensures ok ==> State() == Run(old(State()), Flips(have, ids, w, |ids|))
      ensures ok ==> budget == old(budget) - |Flips(have, ids, w, |ids|)|
      ensures !ok ==> State() == Run(old(State()), Flips(have, ids, w, |ids|)[..old(budget)]) && budget == 0
    {
      hide Flips, Run;
      FlipsNone(old(State()), have, ids, w);
      keep, ok := {}, true;
      for n := 0 to |ids|
        invariant keep == Keep(have, ids, w, n)
        invariant budget == old(budget) - |Flips(have, ids, w, n)|
        invariant State() == Run(old(State()), Flips(have, ids, w, n))
      {
        var d := have[ids[n]];
        FlipsTurn(old(State()), have, ids, w, n);
        if d.content in w.want && d.content !in keep {
          if !Right(d, w) {
            FlipsPrefix(have, ids, w, n + 1, |ids|);
            FlipsPrefix(have, ids, w, n, |ids|);
            ok := PatchRecord(ids[n], w.proxied, w.ttl);
            if !ok {
              return;
            }
          }
          keep := keep + {d.content};
        }
      }
    }

    /** The second loop: an unwanted record is replaced while there is one, then records are created. */
    method ServeMissing(ghost z: Zone, ids: seq<nat>, w: Wish, spare: seq<nat>, missing: seq<string>)
      returns (waiting: seq<nat>, ok: bool)
      requires Listing(z, ids) && spare == SpareOf(z, ids, w) && missing == MissingOf(z, ids, w)
      requires State() == After(z, ids, w, 0)
      modifies this
      ensures ok <==> old(budget) >= |missing|
      ensures ok ==> waiting == (if |missing| <= |spare| then spare[|missing|..] else []) && budget == old(budget) - |missing|
      ensures State() == After(z, ids, w, if ok then |missing| else old(budget))
    {
      hide SpareOf, MissingOf, Do, After;
      ok := true;
      waiting := spare;
      for j := 0 to |missing|
        invariant waiting == if j <= |spare| then spare[j..] else []
        invariant budget == old(budget) - j
        invariant State() == After(z, ids, w, j)
      {
        NextChange(z, ids, w, j);
        if waiting != [] {
          ok := PutRecord(waiting[0], Wanted(w, missing[j]));
          waiting := waiting[1..];
        } else {
          ok := PostRecord(Wanted(w, missing[j]));
        }
        if !ok {
          return;
        }
      }
    }

    /** The third loop: the unwanted records left are deleted. */
    method DeleteRest(ghost z: Zone, ids: seq<nat>, w: Wish, waiting: seq<nat>) returns (ok: bool)
      requires Listing(z, ids)
      requires var spare, m := SpareOf(z, ids, w), |MissingOf(z, ids, w)|;
               waiting == (if m <= |spare| then spare[m..] else []) && State() == After(z, ids, w, m)
      modifies this
      ensures ok <==> old(budget) >= |waiting|
      ensures State() == After(z, ids, w, |MissingOf(z, ids, w)| + if ok then |waiting| else old(budget))
    {
      hide SpareOf, MissingOf, Do, After;
      ghost var m := |MissingOf(z, ids, w)|;
      ok := true;
      for k := 0 to |waiting|
        invariant budget == old(budget) - k
        invariant State() == After(z, ids, w, m + k)
      {
        NextChange(z, ids, w, m + k);
        ok := DeleteRecord(waiting[k]);
        if !ok {
          return;
        }
      }
    }

    method SetA(ids: seq<nat>, ips: seq<string>, proxied: bool, ttl: int) returns (ok: bool)
      requires Listing(State(), ids)
      modifies this
      ensures var plan := Plan(old(State()), ids, Wish(Distinct(ips), proxied, ttl));
              && (ok <==> old(budget) >= |plan|)
              && State() == Run(old(State()), plan[..if ok then |plan| else old(budget)])
    {
      hide Keep, Spare, Missing, Flips, Run, NoDup, Distinct, Changes, Plan;
      var w := Wish(Distinct(ips), proxied, ttl);
      var have := records;
      ghost var z := State();
      var keep;
      keep, ok := FlipFlags(have, ids, w);
      ghost var flips := Flips(have, ids, w, |ids|);
      PlanStarts(z, ids, w);
      if !ok {
        return;
      }
      var spare, missing := Spare(have, ids, keep), Missing(w.want, keep);
      PlanPrefix(z, ids, w, 0);
      assert Plan(z, ids, w)[..|flips|] == flips;
      var waiting;
      waiting, ok := ServeMissing(z, ids, w, spare, missing);
      if !ok {
        PlanPrefix(z, ids, w, old(budget) - |flips|);
        return;
      }
      ok := DeleteRest(z, ids, w, waiting);
      PlanPrefix(z, ids, w, |missing| + if ok then |waiting| else old(budget) - |flips| - |missing|);
    }
  }
}
