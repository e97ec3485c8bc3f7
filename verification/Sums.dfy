// Weighted sums over sequences: every total of the books is one of these.
module Sums {

  function Sum<T>(s: seq<T>, f: T -> int): int
  {
    if s == [] then 0 else Sum(s[..|s| - 1], f) + f(s[|s| - 1])
  }

  lemma {:induction false} SumPush<T>(s: seq<T>, x: T, f: T -> int)
    ensures Sum(s + [x], f) == Sum(s, f) + f(x)
  {
    assert (s + [x])[..|s|] == s;
  }

  lemma {:induction false} SumConcat<T>(s: seq<T>, t: seq<T>, f: T -> int)
    ensures Sum(s + t, f) == Sum(s, f) + Sum(t, f)
  {
    if t == [] {
      assert s + t == s;
    } else {
      var t', x := t[..|t| - 1], t[|t| - 1];
      SumConcat(s, t', f);
      assert s + t == (s + t') + [x];
      SumPush(s + t', x, f);
    }
  }

  lemma {:induction false} SumFront<T>(s: seq<T>, f: T -> int)
    requires s != []
    ensures Sum(s, f) == f(s[0]) + Sum(s[1..], f)
  {
    assert s == [s[0]] + s[1..];
    SumConcat([s[0]], s[1..], f);
    assert [s[0]] == [] + [s[0]];
    SumPush([], s[0], f);
  }

  lemma {:induction false} SumUpdate<T>(s: seq<T>, i: nat, x: T, f: T -> int)
    requires i < |s|
    ensures Sum(s[i := x], f) == Sum(s, f) - f(s[i]) + f(x)
  {
    var n := |s| - 1;
    if i == n {
      assert s[i := x][..n] == s[..n];
    } else {
      SumUpdate(s[..n], i, x, f);
      assert s[i := x][..n] == s[..n][i := x];
    }
  }

  /** Two lists whose weights agree position by position have the same sum. */
  lemma {:induction false} SumEqual<S, T>(s: seq<S>, f: S -> int, t: seq<T>, g: T -> int)
    requires |s| == |t|
    requires forall k :: 0 <= k < |s| ==> f(s[k]) == g(t[k])
    ensures Sum(s, f) == Sum(t, g)
  {
    if s != [] {
      var n := |s| - 1;
      SumEqual(s[..n], f, t[..n], g);
    }
  }

  lemma {:induction false} SumAtMost<S, T>(s: seq<S>, f: S -> int, t: seq<T>, g: T -> int)
    requires |s| == |t|
    requires forall k :: 0 <= k < |s| ==> f(s[k]) <= g(t[k])
    ensures Sum(s, f) <= Sum(t, g)
  {
    if s != [] {
      var n := |s| - 1;
      SumAtMost(s[..n], f, t[..n], g);
    }
  }

  lemma {:induction false} SumZero<T>(s: seq<T>, f: T -> int)
    requires forall k :: 0 <= k < |s| ==> f(s[k]) == 0
    ensures Sum(s, f) == 0
  {
    if s != [] {
      SumZero(s[..|s| - 1], f);
    }
  }

  /** With weights of at least zero, no single weight exceeds the sum. */
  lemma {:induction false} SumMember<T>(s: seq<T>, f: T -> int)
    requires forall k :: 0 <= k < |s| ==> f(s[k]) >= 0
    ensures Sum(s, f) >= 0
    ensures forall k :: 0 <= k < |s| ==> f(s[k]) <= Sum(s, f)
  {
    if s != [] {
      var n := |s| - 1;
      SumMember(s[..n], f);
      forall k | 0 <= k < |s| ensures f(s[k]) <= Sum(s, f) {
        if k < n {
          assert s[..n][k] == s[k];
        }
      }
    }
  }

  /** Raising the weight of one of several distinct members by x raises the sum by x. */
  lemma {:induction false} SumOneMore<T>(s: seq<T>, f: T -> int, g: T -> int, a: T, x: int)
    requires forall j, k :: 0 <= j < k < |s| ==> s[j] != s[k]
    requires forall k :: 0 <= k < |s| ==> g(s[k]) == f(s[k]) + if s[k] == a then x else 0
    ensures Sum(s, g) == Sum(s, f) + if a in s then x else 0
  {
    if s != [] {
      var rest, n := s[..|s| - 1], s[|s| - 1];
      SumOneMore(rest, f, g, a, x);
      assert s == rest + [n];
      assert n !in rest;
    }
  }

  /** Weights that split position by position split the sum. */
  lemma {:induction false} SumSplit<T>(s: seq<T>, f: T -> int, t: seq<T>, g: T -> int, h: T -> int)
    requires |s| == |t|
    requires forall k :: 0 <= k < |s| ==> f(s[k]) == g(t[k]) + h(s[k])
    ensures Sum(s, f) == Sum(t, g) + Sum(s, h)
  {
    if s != [] {
      var n := |s| - 1;
      SumSplit(s[..n], f, t[..n], g, h);
    }
  }

  lemma {:induction false} Regroup<T>(done: seq<T>, x: T, rest: seq<T>)
    ensures done + ([x] + rest) == (done + [x]) + rest
  {
  }
}
