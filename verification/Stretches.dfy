// The greedy rule computes the picture in Pouring.dfy: what every invoice takes from
// every source is the length of their common stretch of the line.
module Stretches {
  import opened Wrappers
  import opened Basics
  import opened Records
  import opened Sums
  import opened Books
  import opened Pouring

  /** Where the k-th piece starts on the line. */
  function Start<T>(s: seq<T>, f: T -> int, k: nat): int
    requires k <= |s|
  {
    Sum(s[..k], f)
  }

  /** The s-th source; after the last one, the balance. */
  function EntryAt(ss: seq<Source>, s: nat): Option<nat> {
    if s < |ss| then Some(ss[s].entry) else None
  }

  /** Where the s-th source ends; the balance never ends before the cut. */
  function SourceEnd(ss: seq<Source>, s: nat, cut: int): int
    requires s <= |ss|
  {
    if s < |ss| then Start(ss, CreditOf(), s) + ss[s].credit else cut
  }

  /** The common stretch of invoice i and source s, left of the cut. */
  function Stretch(ts: seq<Target>, ss: seq<Source>, cut: int, i: nat, s: nat): int
    requires i < |ts| && s <= |ss|
  {
    var from := Max(Start(ts, RemOf(), i), Start(ss, CreditOf(), s));
    var to := Min(cut, Min(Start(ts, RemOf(), i) + ts[i].rem, SourceEnd(ss, s, cut)));
    Max(0, to - from)
  }

  function Pair(id: nat, e: Option<nat>): Alloc -> int {
    (a: Alloc) => if a.invoice == id && a.entry == e then a.amount else 0
  }

  function FromSource(e: Option<nat>): Alloc -> int {
    (a: Alloc) => if a.entry == e then a.amount else 0
  }

  ghost predicate Pieces(ts: seq<Target>, ss: seq<Source>) {
    && (forall k :: 0 <= k < |ts| ==> ts[k].rem >= 0)
    && (forall k :: 0 <= k < |ss| ==> ss[k].credit >= 0)
    && (forall k, l :: 0 <= k < l < |ts| ==> ts[k].id != ts[l].id)
    && (forall k, l :: 0 <= k < l < |ss| ==> ss[k].entry != ss[l].entry)
  }

  // ---- starts ----

  lemma {:induction false} StartTail<T>(s: seq<T>, f: T -> int, k: nat)
    requires 0 < k <= |s|
    ensures Start(s[1..], f, k - 1) == Start(s, f, k) - f(s[0])
  {
    SumFront(s[..k], f);
    assert s[..k][1..] == s[1..][..k - 1];
  }

  lemma {:induction false} StartCut<T>(s: seq<T>, x: T, f: T -> int, k: nat)
    requires 0 < k <= |s|
    ensures Start([x] + s[1..], f, k) == Start(s, f, k) - f(s[0]) + f(x)
  {
    assert ([x] + s[1..])[..k] == s[..k][0 := x];
    SumUpdate(s[..k], 0, x, f);
  }

  lemma {:induction false} StartGrows<T>(s: seq<T>, f: T -> int, k: nat)
    requires forall j :: 0 <= j < |s| ==> f(s[j]) >= 0
    requires k <= |s|
    ensures Start(s, f, k) >= 0
    ensures k > 0 ==> Start(s, f, k) >= f(s[0])
  {
    SumMember(s[..k], f);
    if k > 0 {
      assert s[..k][0] == s[0];
    }
  }

  lemma {:induction false} SumRow(a: Alloc, rest: seq<Alloc>, f: Alloc -> int)
    ensures Sum([a] + rest, f) == f(a) + Sum(rest, f)
  {
    SumFront([a] + rest, f);
  }

  /** The first piece shortened by take. */
  function CutTarget(ts: seq<Target>, take: int): seq<Target>
    requires ts != []
  {
    [ts[0].(rem := ts[0].rem - take)] + ts[1..]
  }

  function CutSource(ss: seq<Source>, take: int): seq<Source>
    requires ss != []
  {
    [ss[0].(credit := ss[0].credit - take)] + ss[1..]
  }

  /** What the first invoice takes from the first source. */
  function Take(ts: seq<Target>, ss: seq<Source>, left: int): int
    requires ts != [] && ss != []
  {
    Min(left, Min(ts[0].rem, ss[0].credit))
  }

  function TakeRow(ts: seq<Target>, ss: seq<Source>, left: int, auto: bool): Alloc
    requires ts != [] && ss != []
  {
    NewRow(ts[0].id, Take(ts, ss, left), ss[0].kind, Some(ss[0].entry), auto)
  }

  ghost predicate CanTake(ts: seq<Target>, ss: seq<Source>, left: int) {
    Pieces(ts, ss) && left > 0 && ts != [] && ss != [] && ts[0].rem > 0 && ss[0].credit > 0
  }

  lemma {:induction false} PourTake(ts: seq<Target>, ss: seq<Source>, left: int, auto: bool, f: Alloc -> int)
    requires CanTake(ts, ss, left)
    ensures var take := Take(ts, ss, left);
            Sum(Pour(ts, ss, left, auto), f)
            == f(TakeRow(ts, ss, left, auto)) + Sum(Pour(CutTarget(ts, take), CutSource(ss, take), left - take, auto), f)
  {
    var take := Take(ts, ss, left);
    SumRow(TakeRow(ts, ss, left, auto), Pour(CutTarget(ts, take), CutSource(ss, take), left - take, auto), f);
  }

  lemma {:induction false} PourBalance(ts: seq<Target>, left: int, auto: bool, f: Alloc -> int)
    requires left > 0 && ts != [] && ts[0].rem > 0
    ensures var take := Min(left, ts[0].rem);
            Sum(Pour(ts, [], left, auto), f)
            == f(NewRow(ts[0].id, take, ByBalance, None, auto)) + Sum(Pour(ts[1..], [], left - take, auto), f)
  {
    var take := Min(left, ts[0].rem);
    SumRow(NewRow(ts[0].id, take, ByBalance, None, auto), Pour(ts[1..], [], left - take, auto), f);
  }

  lemma {:induction false} PiecesCut(ts: seq<Target>, ss: seq<Source>, left: int)
    requires CanTake(ts, ss, left)
    ensures var take := Take(ts, ss, left); Pieces(CutTarget(ts, take), CutSource(ss, take))
  {
    var take := Take(ts, ss, left);
    var ts', ss' := CutTarget(ts, take), CutSource(ss, take);
    forall k | 0 <= k < |ts'| ensures ts'[k].rem >= 0 && ts'[k].id == ts[k].id {}
    forall k | 0 <= k < |ss'| ensures ss'[k].credit >= 0 && ss'[k].entry == ss[k].entry {}
  }

  /** Shortening both first pieces moves every later one down by as much. */
  lemma {:induction false} CutStarts(ts: seq<Target>, ss: seq<Source>, take: int, i: nat, s: nat)
    requires ts != [] && ss != [] && i <= |ts| && s <= |ss|
    ensures Start(CutTarget(ts, take), RemOf(), i) == Start(ts, RemOf(), i) - if i == 0 then 0 else take
    ensures Start(CutSource(ss, take), CreditOf(), s) == Start(ss, CreditOf(), s) - if s == 0 then 0 else take
    ensures Sum(CutTarget(ts, take), RemOf()) == Sum(ts, RemOf()) - take
  {
    var t, c := CutTarget(ts, take)[0], CutSource(ss, take)[0];
    if i > 0 {
      StartCut(ts, t, RemOf(), i);
    }
    if s > 0 {
      StartCut(ss, c, CreditOf(), s);
    }
    StartCut(ts, t, RemOf(), |ts|);
    assert ts[..|ts|] == ts && CutTarget(ts, take)[..|ts|] == CutTarget(ts, take);
  }

  // ---- the picture ----

  /** Nothing is taken from a source, or for an invoice, that is not on the line. */
  lemma {:induction false} PourAbsent(ts: seq<Target>, ss: seq<Source>, left: int, auto: bool, id: nat, e: Option<nat>)
    requires (forall k :: 0 <= k < |ts| ==> ts[k].id != id) || (e.Some? && forall k :: 0 <= k < |ss| ==> ss[k].entry != e.value)
    ensures Sum(Pour(ts, ss, left, auto), Pair(id, e)) == 0
    decreases |ts| + |ss|, Max(0, left)
  {
    hide Pour;
    PourTurn(ts, ss, left, auto);
    if left <= 0 || ts == [] {
    } else if ts[0].rem <= 0 {
      PourAbsent(ts[1..], ss, left, auto, id, e);
    } else if ss == [] {
      var take := Min(left, ts[0].rem);
      PourAbsent(ts[1..], ss, left - take, auto, id, e);
      SumRow(NewRow(ts[0].id, take, ByBalance, None, auto), Pour(ts[1..], ss, left - take, auto), Pair(id, e));
    } else if ss[0].credit <= 0 {
      PourAbsent(ts, ss[1..], left, auto, id, e);
    } else {
      var take := Min(left, Min(ts[0].rem, ss[0].credit));
      var ts' := [ts[0].(rem := ts[0].rem - take)] + ts[1..];
      var ss' := [ss[0].(credit := ss[0].credit - take)] + ss[1..];
      PourAbsent(ts', ss', left - take, auto, id, e);
      SumRow(NewRow(ts[0].id, take, ss[0].kind, Some(ss[0].entry), auto), Pour(ts', ss', left - take, auto), Pair(id, e));
    }
  }

  lemma {:induction false} PourIsStretch(ts: seq<Target>, ss: seq<Source>, left: int, auto: bool, i: nat, s: nat)
    requires Pieces(ts, ss) && i < |ts| && s <= |ss| && left >= 0
    ensures Sum(Pour(ts, ss, left, auto), Pair(ts[i].id, EntryAt(ss, s))) == Stretch(ts, ss, left, i, s)
    decreases |ts| + |ss|, left
  {
    hide Pair;
    hide NewRow;
    StartGrows(ts, RemOf(), i);
    StartGrows(ss, CreditOf(), s);
    if left == 0 {
    } else if ts[0].rem == 0 {
      StretchDropTarget(ts, ss, left, auto, i, s);
    } else if ss == [] {
      StretchBalance(ts, left, auto, i);
    } else if ss[0].credit == 0 {
      if s == 0 {
        PourAbsent(ts, ss[1..], left, auto, ts[i].id, EntryAt(ss, s));
      } else {
        StartTail(ss, CreditOf(), s);
        PourIsStretch(ts, ss[1..], left, auto, i, s - 1);
      }
    } else {
      StretchTake(ts, ss, left, auto, i, s);
    }
  }

  lemma {:induction false} StretchDropTarget(ts: seq<Target>, ss: seq<Source>, left: int, auto: bool, i: nat, s: nat)
    requires Pieces(ts, ss) && i < |ts| && s <= |ss| && left > 0 && ts[0].rem == 0
    ensures Sum(Pour(ts, ss, left, auto), Pair(ts[i].id, EntryAt(ss, s))) == Stretch(ts, ss, left, i, s)
    decreases |ts| + |ss|, left, 0
  {
    hide Sum;
    hide EntryAt;
    StartGrows(ss, CreditOf(), s);
    if i == 0 {
      PourAbsent(ts[1..], ss, left, auto, ts[0].id, EntryAt(ss, s));
    } else {
      StartTail(ts, RemOf(), i);
      PourIsStretch(ts[1..], ss, left, auto, i - 1, s);
    }
  }

  lemma {:induction false} StretchBalance(ts: seq<Target>, left: int, auto: bool, i: nat)
    requires Pieces(ts, []) && i < |ts| && left > 0 && ts[0].rem > 0
    ensures Sum(Pour(ts, [], left, auto), Pair(ts[i].id, None)) == Stretch(ts, [], left, i, 0)
    decreases |ts|, left, 0
  {
    var take := Min(left, ts[0].rem);
    PourBalance(ts, left, auto, Pair(ts[i].id, None));
    if i == 0 {
      PourAbsent(ts[1..], [], left - take, auto, ts[0].id, None);
    } else {
      StartTail(ts, RemOf(), i);
      StartGrows(ts, RemOf(), i);
      StartGrows(ts[1..], RemOf(), i - 1);
      PourIsStretch(ts[1..], [], left - take, auto, i - 1, 0);
    }
  }

  lemma {:induction false} StretchTake(ts: seq<Target>, ss: seq<Source>, left: int, auto: bool, i: nat, s: nat)
    requires CanTake(ts, ss, left) && i < |ts| && s <= |ss|
    ensures Sum(Pour(ts, ss, left, auto), Pair(ts[i].id, EntryAt(ss, s))) == Stretch(ts, ss, left, i, s)
    decreases |ts| + |ss|, left, 0
  {
    var take := Take(ts, ss, left);
    var ts', ss' := CutTarget(ts, take), CutSource(ss, take);
    PiecesCut(ts, ss, left);
    PourTake(ts, ss, left, auto, Pair(ts[i].id, EntryAt(ss, s)));
    PourIsStretch(ts', ss', left - take, auto, i, s);
    assert ts'[i].id == ts[i].id && EntryAt(ss', s) == EntryAt(ss, s);
    StretchShift(ts, ss, left, i, s);
  }

  lemma {:induction false} StretchShift(ts: seq<Target>, ss: seq<Source>, left: int, i: nat, s: nat)
    requires CanTake(ts, ss, left) && i < |ts| && s <= |ss|
    ensures var take := Take(ts, ss, left);
            Stretch(ts, ss, left, i, s)
            == Stretch(CutTarget(ts, take), CutSource(ss, take), left - take, i, s) + if i == 0 && s == 0 then take else 0
  {
    CutStarts(ts, ss, Take(ts, ss, left), i, s);
    StartGrows(ts, RemOf(), i);
    StartGrows(ss, CreditOf(), s);
  }

  /** What of the cut reaches the i-th piece. */
  function Reached(ts: seq<Target>, cut: int, i: nat): int
    requires i < |ts|
  {
    var from := Start(ts, RemOf(), i);
    Max(0, Min(cut, from + ts[i].rem) - from)
  }

  /** Oldest first: an invoice takes what of the cut reaches its own piece of the line. */
  lemma {:induction false} PourInvoice(ts: seq<Target>, ss: seq<Source>, left: int, auto: bool, i: nat)
    requires Pieces(ts, ss) && i < |ts| && left >= 0
    ensures Sum(Pour(ts, ss, left, auto), OnInvoice(ts[i].id)) == Reached(ts, left, i)
    decreases |ts| + |ss|, left
  {
    StartGrows(ts, RemOf(), i);
    if left == 0 {
    } else if ts[0].rem == 0 {
      if i == 0 {
        PourSkips(ts[1..], ss, left, auto, ts[0].id);
      } else {
        StartTail(ts, RemOf(), i);
        PourInvoice(ts[1..], ss, left, auto, i - 1);
      }
    } else if ss == [] {
      InvoiceBalance(ts, left, auto, i);
    } else if ss[0].credit == 0 {
      PourInvoice(ts, ss[1..], left, auto, i);
    } else {
      InvoiceTake(ts, ss, left, auto, i);
    }
  }

  lemma {:induction false} InvoiceBalance(ts: seq<Target>, left: int, auto: bool, i: nat)
    requires Pieces(ts, []) && i < |ts| && left > 0 && ts[0].rem > 0
    ensures Sum(Pour(ts, [], left, auto), OnInvoice(ts[i].id)) == Reached(ts, left, i)
    decreases |ts|, left, 0
  {
    var take := Min(left, ts[0].rem);
    PourBalance(ts, left, auto, OnInvoice(ts[i].id));
    StartGrows(ts, RemOf(), i);
    if i == 0 {
      PourSkips(ts[1..], [], left - take, auto, ts[0].id);
    } else {
      StartTail(ts, RemOf(), i);
      StartGrows(ts[1..], RemOf(), i - 1);
      PourInvoice(ts[1..], [], left - take, auto, i - 1);
    }
  }

  lemma {:induction false} InvoiceTake(ts: seq<Target>, ss: seq<Source>, left: int, auto: bool, i: nat)
    requires CanTake(ts, ss, left) && i < |ts|
    ensures Sum(Pour(ts, ss, left, auto), OnInvoice(ts[i].id)) == Reached(ts, left, i)
    decreases |ts| + |ss|, left, 0
  {
    var take := Take(ts, ss, left);
    PiecesCut(ts, ss, left);
    PourTake(ts, ss, left, auto, OnInvoice(ts[i].id));
    CutStarts(ts, ss, take, i, 0);
    StartGrows(ts, RemOf(), i);
    PourInvoice(CutTarget(ts, take), CutSource(ss, take), left - take, auto, i);
  }

  lemma {:induction false} PourSkips(ts: seq<Target>, ss: seq<Source>, left: int, auto: bool, id: nat)
    requires forall k :: 0 <= k < |ts| ==> ts[k].id != id
    ensures Sum(Pour(ts, ss, left, auto), OnInvoice(id)) == 0
    decreases |ts| + |ss|, Max(0, left)
  {
    if left <= 0 || ts == [] {
    } else if ts[0].rem <= 0 {
      PourSkips(ts[1..], ss, left, auto, id);
    } else if ss == [] {
      var take := Min(left, ts[0].rem);
      PourSkips(ts[1..], ss, left - take, auto, id);
      SumRow(NewRow(ts[0].id, take, ByBalance, None, auto), Pour(ts[1..], ss, left - take, auto), OnInvoice(id));
    } else if ss[0].credit <= 0 {
      PourSkips(ts, ss[1..], left, auto, id);
    } else {
      var take := Min(left, Min(ts[0].rem, ss[0].credit));
      var ts' := [ts[0].(rem := ts[0].rem - take)] + ts[1..];
      var ss' := [ss[0].(credit := ss[0].credit - take)] + ss[1..];
      PourSkips(ts', ss', left - take, auto, id);
      SumRow(NewRow(ts[0].id, take, ss[0].kind, Some(ss[0].entry), auto), Pour(ts', ss', left - take, auto), OnInvoice(id));
    }
  }

  /** What a source gives: the part of its own piece that lies left of what is settled. Past the last source, the balance. */
  lemma {:induction false} PourSource(ts: seq<Target>, ss: seq<Source>, left: int, auto: bool, s: nat)
    requires Pieces(ts, ss) && s <= |ss| && left >= 0
    ensures Sum(Pour(ts, ss, left, auto), FromSource(EntryAt(ss, s))) == Given(ss, Min(left, Sum(ts, RemOf())), s)
    decreases |ts| + |ss|, left
  {
    hide FromSource;
    hide Start;
    StartGrows(ss, CreditOf(), s);
    SumMember(ts, RemOf());
    if left == 0 || ts == [] {
    } else if ts[0].rem == 0 {
      SumFront(ts, RemOf());
      PourSource(ts[1..], ss, left, auto, s);
    } else if ss == [] {
      SourceBalance(ts, left, auto);
      GivenAll(Min(left, Sum(ts, RemOf())));
    } else if ss[0].credit == 0 {
      if s == 0 {
        SourceSkips(ts, ss[1..], left, auto, ss[0].entry);
      } else {
        StartTail(ss, CreditOf(), s);
        PourSource(ts, ss[1..], left, auto, s - 1);
      }
    } else {
      SourceTake(ts, ss, left, auto, s);
    }
  }

  /** The part of the s-th source (or of the balance) left of what is settled. */
  function Given(ss: seq<Source>, settled: int, s: nat): int
    requires s <= |ss|
  {
    Max(0, Min(settled, SourceEnd(ss, s, settled)) - Start(ss, CreditOf(), s))
  }

  lemma {:induction false} SourceBalance(ts: seq<Target>, left: int, auto: bool)
    requires forall k :: 0 <= k < |ts| ==> ts[k].rem >= 0
    ensures Sum(Pour(ts, [], left, auto), FromSource(None)) == Min(Max(0, left), Sum(ts, RemOf()))
    decreases |ts|
  {
    SumMember(ts, RemOf());
    if left > 0 && ts != [] {
      SumFront(ts, RemOf());
      SumMember(ts[1..], RemOf());
      if ts[0].rem == 0 {
        SourceBalance(ts[1..], left, auto);
      } else {
        PourBalance(ts, left, auto, FromSource(None));
        SourceBalance(ts[1..], left - Min(left, ts[0].rem), auto);
      }
    }
  }

  /** With no source at all, the balance gives everything. */
  lemma {:induction false} GivenAll(settled: int)
    requires settled >= 0
    ensures Given([], settled, 0) == settled
  {
  }

  lemma {:induction false} SourceTake(ts: seq<Target>, ss: seq<Source>, left: int, auto: bool, s: nat)
    requires CanTake(ts, ss, left) && s <= |ss|
    ensures Sum(Pour(ts, ss, left, auto), FromSource(EntryAt(ss, s))) == Given(ss, Min(left, Sum(ts, RemOf())), s)
    decreases |ts| + |ss|, left, 0
  {
    hide Pour;
    var take := Take(ts, ss, left);
    var ts', ss' := CutTarget(ts, take), CutSource(ss, take);
    PiecesCut(ts, ss, left);
    PourTake(ts, ss, left, auto, FromSource(EntryAt(ss, s)));
    PourSource(ts', ss', left - take, auto, s);
    assert EntryAt(ss', s) == EntryAt(ss, s);
    CutStarts(ts, ss, take, 0, s);
    SumMember(ts, RemOf());
    assert RemOf()(ts[0]) <= Sum(ts, RemOf());
    StartGrows(ss, CreditOf(), s);
  }

  lemma {:induction false} SourceSkips(ts: seq<Target>, ss: seq<Source>, left: int, auto: bool, e: nat)
    requires forall k :: 0 <= k < |ss| ==> ss[k].entry != e
    ensures Sum(Pour(ts, ss, left, auto), FromSource(Some(e))) == 0
    decreases |ts| + |ss|, Max(0, left)
  {
    if left <= 0 || ts == [] {
    } else if ts[0].rem <= 0 {
      SourceSkips(ts[1..], ss, left, auto, e);
    } else if ss == [] {
      var take := Min(left, ts[0].rem);
      SourceSkips(ts[1..], ss, left - take, auto, e);
      SumRow(NewRow(ts[0].id, take, ByBalance, None, auto), Pour(ts[1..], ss, left - take, auto), FromSource(Some(e)));
    } else if ss[0].credit <= 0 {
      SourceSkips(ts, ss[1..], left, auto, e);
    } else {
      var take := Min(left, Min(ts[0].rem, ss[0].credit));
      var ts' := [ts[0].(rem := ts[0].rem - take)] + ts[1..];
      var ss' := [ss[0].(credit := ss[0].credit - take)] + ss[1..];
      SourceSkips(ts', ss', left - take, auto, e);
      SumRow(NewRow(ts[0].id, take, ss[0].kind, Some(ss[0].entry), auto), Pour(ts', ss', left - take, auto), FromSource(Some(e)));
    }
  }
}
