// What several parts need of numbers, characters and lists.
module Basics {

  function Max(x: int, y: int): int { if x < y then y else x }

  function Min(x: int, y: int): int { if x < y then x else y }

  predicate Digit(c: char) { '0' <= c <= '9' }

  predicate NoDup<T(==)>(s: seq<T>) {
    forall j, k :: 0 <= j < k < |s| ==> s[j] != s[k]
  }

  /** The members without repetition, in the order of their first occurrence. */
  function Distinct<T(==, !new)>(s: seq<T>): (r: seq<T>)
    ensures NoDup(r)
    ensures forall x :: x in r <==> x in s
    ensures forall k :: 0 <= k < |r| ==> r[k] in s
  {
    if s == [] then []
    else
      var r, x := Distinct(s[..|s| - 1]), s[|s| - 1];
      assert s == s[..|s| - 1] + [x];
      if x in r then r else r + [x]
  }
}
