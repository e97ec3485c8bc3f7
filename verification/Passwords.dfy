// The rule for reseller passwords, and a generator that always meets it.
module Passwords {
  import opened Wrappers
  import opened Basics

  const MIN: nat := 12
  const SPECIALS: string := "#.$@!%&*-_+=?"
  const UPPERS: string := "ABCDEFGHJKLMNPQRSTUVWXYZ"
  const LOWERS: string := "abcdefghijkmnopqrstuvwxyz"
  const DIGITS: string := "23456789"

  datatype Problem = Length | Upper | Lower | Digits | Special | Charset | Username

  // ---- the rule ----

  predicate IsUpper(c: char) { 'A' <= c <= 'Z' }

  predicate IsLower(c: char) { 'a' <= c <= 'z' }

  predicate IsSpecial(c: char) { c in SPECIALS }

  predicate IsSpace(c: char) { c == ' ' || '\t' <= c <= '\r' || '\U{1c}' <= c <= '\U{1f}' }

  predicate InCharset(c: char) { !IsSpace(c) && c as int <= 126 }

  function Count(s: string, p: char -> bool): nat {
    if s == "" then 0 else Count(s[..|s| - 1], p) + if p(s[|s| - 1]) then 1 else 0
  }

  function LowerCase(s: string): (r: string)
    ensures |r| == |s|
  {
    if s == "" then ""
    else LowerCase(s[..|s| - 1]) + [if IsUpper(s[|s| - 1]) then (s[|s| - 1] as int + 32) as char else s[|s| - 1]]
  }

  predicate PartAt(s: string, part: string, i: nat) {
    i + |part| <= |s| && s[i..i + |part|] == part
  }

  predicate Contains(s: string, part: string) {
    exists i :: 0 <= i <= |s| && PartAt(s, part, i)
  }

  function PasswordProblem(pw: string, username: string): Option<Problem> {
    if |pw| < MIN then Some(Length)
    else if Count(pw, IsUpper) < 2 then Some(Upper)
    else if Count(pw, IsLower) < 2 then Some(Lower)
    else if Count(pw, Digit) < 2 then Some(Digits)
    else if forall i :: 0 <= i < |pw| ==> !IsSpecial(pw[i]) then Some(Special)
    else if exists i :: 0 <= i < |pw| && !InCharset(pw[i]) then Some(Charset)
    else if username != "" && Contains(LowerCase(pw), LowerCase(username)) then Some(Username)
    else None
  }

  // ---- the shuffle ----

  function Swap(s: string, i: nat, j: nat): (r: string)
    requires i < |s| && j < |s|
    ensures |r| == |s| && multiset(r) == multiset(s)
  {
    SwapKeeps(s, i, j);
    s[i := s[j]][j := s[i]]
  }

  lemma {:induction false} SwapKeeps(s: string, i: nat, j: nat)
    requires i < |s| && j < |s|
    ensures multiset(s[i := s[j]][j := s[i]]) == multiset(s)
  {
  }

  /** The k-th outcome, from the last place down, picks one of the places up to its own. */
  predicate Outcomes(n: nat, js: seq<nat>) {
    |js| < n && forall k :: 0 <= k < |js| ==> js[k] <= n - 1 - k
  }

  function Shuffled(s: string, js: seq<nat>): (r: string)
    requires js == [] || Outcomes(|s|, js)
    ensures |r| == |s| && multiset(r) == multiset(s)
  {
    if js == [] then s else Swap(Shuffled(s, js[..|js| - 1]), |s| - |js|, js[|js| - 1])
  }

  lemma {:induction false} CountOfMultiset(s: string, t: string, p: char -> bool)
    requires multiset(s) == multiset(t)
    ensures Count(s, p) == Count(t, p)
    decreases |s|
  {
    if s == "" {
      assert |multiset(t)| == 0;
    } else {
      var c := s[|s| - 1];
      assert s == s[..|s| - 1] + [c];
      assert c in multiset(t);
      var k :| 0 <= k < |t| && t[k] == c;
      Without(t, k);
      CountOfMultiset(s[..|s| - 1], t[..k] + t[k + 1..], p);
      CountWithout(t, k, p);
    }
  }

  lemma {:induction false} Without(t: string, k: nat)
    requires k < |t|
    ensures multiset(t[..k] + t[k + 1..]) == multiset(t) - multiset{t[k]}
  {
    assert t == t[..k] + [t[k]] + t[k + 1..];
  }

  lemma {:induction false} CountConcat(s: string, t: string, p: char -> bool)
    ensures Count(s + t, p) == Count(s, p) + Count(t, p)
    decreases |t|
  {
    if t == "" {
      assert s + t == s;
    } else {
      assert (s + t)[..|s + t| - 1] == s + t[..|t| - 1];
      CountConcat(s, t[..|t| - 1], p);
    }
  }

  lemma {:induction false} CountWithout(t: string, k: nat, p: char -> bool)
    requires k < |t|
    ensures Count(t, p) == Count(t[..k] + t[k + 1..], p) + if p(t[k]) then 1 else 0
  {
    CountConcat(t[..k], t[k..], p);
    CountConcat([t[k]], t[k + 1..], p);
    CountConcat(t[..k], t[k + 1..], p);
    assert t == t[..k] + t[k..] && t[k..] == [t[k]] + t[k + 1..];
    assert Count([t[k]], p) == Count([], p) + if p(t[k]) then 1 else 0;
  }

  // ---- every arrangement, and each from one run of outcomes ----

  /** Places from |s| - |js| on are settled. */
  lemma {:induction false} SuffixSettled(s: string, js: seq<nat>, k: nat)
    requires js == [] || Outcomes(|s|, js)
    requires k <= |js|
    ensures Shuffled(s, js)[|s| - k..] == Shuffled(s, js[..k])[|s| - k..]
    decreases |js|
  {
    if k < |js| {
      var before := js[..|js| - 1];
      SuffixSettled(s, before, k);
      assert before[..k] == js[..k];
      assert Shuffled(s, js)[|s| - k..] == Shuffled(s, before)[|s| - k..];
    } else {
      assert js[..k] == js;
    }
  }

  lemma {:induction false} SameSize(s: string, t: string)
    requires multiset(s) == multiset(t)
    ensures |s| == |t|
  {
    assert |multiset(s)| == |s| && |multiset(t)| == |t|;
  }

  lemma {:induction false} SameFront(u: string, t: string, m: nat)
    requires multiset(u) == multiset(t) && m <= |u| == |t| && u[m..] == t[m..]
    ensures multiset(u[..m]) == multiset(t[..m])
  {
    assert u == u[..m] + u[m..] && t == t[..m] + t[m..];
    assert multiset(u[..m]) == multiset(u) - multiset(u[m..]);
    assert multiset(t[..m]) == multiset(t) - multiset(t[m..]);
  }

  /** What one more outcome does to the settled places. */
  lemma {:induction false} SwapTail(u: string, i: nat, j: nat)
    requires j <= i < |u|
    ensures Swap(u, i, j)[i] == u[j] && Swap(u, i, j)[i + 1..] == u[i + 1..]
  {
  }

  lemma {:induction false} OneMore(s: string, js: seq<nat>)
    requires Outcomes(|s|, js) && js != []
    ensures var i, u := |s| - |js|, Shuffled(s, js[..|js| - 1]);
            Shuffled(s, js)[i] == u[js[|js| - 1]] && Shuffled(s, js)[i + 1..] == u[i + 1..]
  {
    hide Swap;
    SwapTail(Shuffled(s, js[..|js| - 1]), |s| - |js|, js[|js| - 1]);
  }

  /** Outcomes that settle the last k places as wanted. */
  lemma {:induction false} Reach(s: string, t: string, k: nat) returns (js: seq<nat>)
    requires multiset(s) == multiset(t) && k < |s| == |t|
    ensures |js| == k && Outcomes(|s|, js)
    ensures Shuffled(s, js)[|s| - k..] == t[|t| - k..]
    decreases k
  {
    hide Shuffled;
    if k == 0 {
      js := [];
    } else {
      var before := Reach(s, t, k - 1);
      var i := |s| - k;
      var u := Shuffled(s, before);
      SameFront(u, t, i + 1);
      assert t[..i + 1][i] in multiset(t[..i + 1]);
      var j :| 0 <= j < i + 1 && u[..i + 1][j] == t[i];
      js := before + [j];
      assert js[..|js| - 1] == before;
      OneMore(s, js);
      assert Shuffled(s, js)[i..] == [t[i]] + u[i + 1..];
      assert t[i..] == [t[i]] + t[i + 1..];
    }
  }

  /** Every arrangement of the characters is the result of some run of outcomes. */
  lemma {:induction false} EveryArrangement(s: string, t: string)
    requires multiset(s) == multiset(t) && s != ""
    ensures exists js :: |js| == |s| - 1 && Outcomes(|s|, js) && Shuffled(s, js) == t
  {
    hide Shuffled;
    SameSize(s, t);
    var js := Reach(s, t, |s| - 1);
    var u := Shuffled(s, js);
    SameFront(u, t, 1);
    assert u[..1] == [u[0]] && t[..1] == [t[0]];
    assert u[0] in multiset(t[..1]);
    assert u == u[..1] + u[1..] && t == t[..1] + t[1..];
  }

  lemma {:induction false} Settles(s: string, js: seq<nat>, n: nat)
    requires Outcomes(|s|, js) && 0 < n <= |js|
    ensures Shuffled(s, js)[|s| - n] == Shuffled(s, js[..n - 1])[js[n - 1]]
  {
    hide Shuffled;
    SuffixSettled(s, js, n);
    OneMore(s, js[..n]);
    assert js[..n][..n - 1] == js[..n - 1];
    assert Shuffled(s, js)[|s| - n..][0] == Shuffled(s, js[..n])[|s| - n..][0];
  }

  /** And from only one when the characters differ: so equally likely outcomes make equally likely arrangements. */
  lemma {:induction false} OneRunEach(s: string, js: seq<nat>, ks: seq<nat>, n: nat)
    requires Outcomes(|s|, js) && Outcomes(|s|, ks) && |js| == |ks| && n <= |js|
    requires forall a, b :: 0 <= a < b < |s| ==> s[a] != s[b]
    requires Shuffled(s, js) == Shuffled(s, ks)
    ensures js[..n] == ks[..n]
    decreases n
  {
    hide Shuffled;
    if n > 0 {
      OneRunEach(s, js, ks, n - 1);
      Settles(s, js, n);
      Settles(s, ks, n);
      StillDiffer(s, Shuffled(s, js[..n - 1]));
      assert js[..n] == js[..n - 1] + [js[n - 1]] && ks[..n] == ks[..n - 1] + [ks[n - 1]];
    }
  }

  lemma {:induction false} StillDiffer(s: string, u: string)
    requires multiset(s) == multiset(u) && forall a, b :: 0 <= a < b < |s| ==> s[a] != s[b]
    ensures forall a, b :: 0 <= a < b < |u| ==> u[a] != u[b]
  {
    forall a, b | 0 <= a < b < |u| ensures u[a] != u[b] {
      if u[a] == u[b] {
        Twice(u, a, b);
        Once(s, u[a]);
      }
    }
  }

  lemma {:induction false} Twice(u: string, a: nat, b: nat)
    requires a < b < |u| && u[a] == u[b]
    ensures multiset(u)[u[a]] >= 2
  {
    assert u == u[..a] + [u[a]] + u[a + 1..b] + [u[b]] + u[b + 1..];
  }

  lemma {:induction false} Once(s: string, c: char)
    requires forall a, b :: 0 <= a < b < |s| ==> s[a] != s[b]
    ensures multiset(s)[c] <= 1
    decreases |s|
  {
    if s != "" {
      assert s == s[..|s| - 1] + [s[|s| - 1]];
      Once(s[..|s| - 1], c);
    }
  }

  // ---- the generator ----

  method Choice(alphabet: string) returns (c: char)
    requires alphabet != ""
    ensures c in alphabet
  {
    var k :| 0 <= k < |alphabet|;
    c := alphabet[k];
  }

  method Choices(alphabet: string, n: nat) returns (s: string)
    requires alphabet != ""
    ensures |s| == n && forall k :: 0 <= k < n ==> s[k] in alphabet
  {
    s := "";
    while |s| < n
      invariant |s| <= n && forall k :: 0 <= k < |s| ==> s[k] in alphabet
    {
      var c := Choice(alphabet);
      s := s + [c];
    }
  }

  lemma {:induction false} NoOutcome(s: string)
    ensures Shuffled(s, []) == s
  {
  }

  lemma {:induction false} OneOutcomeMore(s: string, js: seq<nat>, j: nat)
    requires Outcomes(|s|, js) && |js| + 1 < |s| && j < |s| - |js|
    ensures Outcomes(|s|, js + [j]) && Shuffled(s, js + [j]) == Swap(Shuffled(s, js), |s| - |js| - 1, j)
  {
    hide Swap;
    assert (js + [j])[..|js|] == js;
  }

  /** In place, from the last character down; js records the outcomes. */
  method Shuffle(pick: array<char>) returns (ghost js: seq<nat>)
    requires pick.Length > 0
    modifies pick
    ensures |js| == pick.Length - 1 && Outcomes(pick.Length, js)
    ensures pick[..] == Shuffled(old(pick[..]), js)
  {
    hide Shuffled;
    js := [];
    var i := pick.Length - 1;
    assert pick[..] == Shuffled(old(pick[..]), []) by { NoOutcome(pick[..]); }
    while i > 0
      invariant 0 <= i < pick.Length
      invariant |js| == pick.Length - 1 - i && Outcomes(pick.Length, js)
      invariant pick[..] == Shuffled(old(pick[..]), js)
    {
      var j: nat :| j <= i;
      ghost var before := pick[..];
      pick[i], pick[j] := pick[j], pick[i];
      assert pick[..] == Swap(before, i, j);
      OneOutcomeMore(old(pick[..]), js, j);
      js := js + [j];
      i := i - 1;
    }
  }

  // ---- the promise ----

  predicate Among(s: string, alphabet: string) {
    forall k :: 0 <= k < |s| ==> s[k] in alphabet
  }

  /** The characters before shuffling: two of each class, then any of the pool. */
  predicate Seeded(up: string, low: string, dig: string, spec: string, more: string) {
    && |up| == |low| == |dig| == |spec| == 2
    && Among(up, UPPERS) && Among(low, LOWERS) && Among(dig, DIGITS) && Among(spec, SPECIALS)
    && Among(more, UPPERS + LOWERS + DIGITS)
  }

  lemma {:induction false} UppersAreUpper()
    ensures forall c :: c in UPPERS ==> IsUpper(c)
  {
  }

  lemma {:induction false} LowersAreLower()
    ensures forall c :: c in LOWERS ==> IsLower(c)
  {
  }

  lemma {:induction false} SpecialsAllowed()
    ensures forall c :: c in SPECIALS ==> InCharset(c)
  {
    forall c | c in SPECIALS ensures InCharset(c) {}
  }

  lemma {:induction false} Alphabets()
    ensures forall c :: c in UPPERS ==> IsUpper(c)
    ensures forall c :: c in LOWERS ==> IsLower(c)
    ensures forall c :: c in DIGITS ==> Digit(c)
    ensures forall c :: c in SPECIALS ==> InCharset(c)
  {
    hide IsUpper, IsLower, InCharset;
    UppersAreUpper();
    LowersAreLower();
    SpecialsAllowed();
  }

  lemma {:induction false} Pair(part: string, p: char -> bool)
    requires |part| == 2 && p(part[0]) && p(part[1])
    ensures Count(part, p) == 2
  {
    assert part[..1] == [part[0]] && part[..1][..0] == "";
    assert Count(part[..1], p) == 1;
  }

  lemma {:induction false} CountParts(a: string, b: string, c: string, d: string, e: string, p: char -> bool)
    ensures Count(a + b + c + d + e, p) == Count(a, p) + Count(b, p) + Count(c, p) + Count(d, p) + Count(e, p)
  {
    hide Count;
    CountConcat(a + b + c + d, e, p);
    CountConcat(a + b + c, d, p);
    CountConcat(a + b, c, p);
    CountConcat(a, b, p);
  }

  lemma {:induction false} EnoughOfEach(up: string, low: string, dig: string, spec: string, more: string)
    requires Seeded(up, low, dig, spec, more)
    ensures var s := up + low + dig + spec + more;
            Count(s, IsUpper) >= 2 && Count(s, IsLower) >= 2 && Count(s, Digit) >= 2
  {
    hide Count, IsUpper, IsLower, Digit;
    Alphabets();
    Pair(up, IsUpper);
    Pair(low, IsLower);
    Pair(dig, Digit);
    CountParts(up, low, dig, spec, more, IsUpper);
    CountParts(up, low, dig, spec, more, IsLower);
    CountParts(up, low, dig, spec, more, Digit);
  }

  lemma {:induction false} AllInCharset(up: string, low: string, dig: string, spec: string, more: string)
    requires Seeded(up, low, dig, spec, more)
    ensures forall c :: c in up + low + dig + spec + more ==> InCharset(c)
  {
    Alphabets();
    forall c | c in more ensures InCharset(c) {
      assert c in UPPERS || c in LOWERS || c in DIGITS;
    }
  }

  lemma {:induction false} SpecialThere(up: string, low: string, dig: string, spec: string, more: string)
    requires Seeded(up, low, dig, spec, more)
    ensures exists c :: c in up + low + dig + spec + more && IsSpecial(c)
  {
    var s := up + low + dig + spec + more;
    assert s[6] == spec[0];
    assert s[6] in s && IsSpecial(s[6]);
  }

  lemma {:induction false} SameMembers(s: string, t: string)
    requires multiset(s) == multiset(t)
    ensures forall c :: c in s <==> c in t
  {
    forall c ensures c in s <==> c in t {
      assert c in s <==> c in multiset(s);
      assert c in t <==> c in multiset(t);
    }
  }

  /** However the seeded characters are arranged, the rule is met. */
  lemma {:induction false} ArrangedIsFine(up: string, low: string, dig: string, spec: string, more: string, pw: string)
    requires Seeded(up, low, dig, spec, more) && |more| >= 4
    requires multiset(pw) == multiset(up + low + dig + spec + more)
    ensures PasswordProblem(pw, "") == None
  {
    var s := up + low + dig + spec + more;
    assert |s| >= MIN;
    SpecialThere(up, low, dig, spec, more);
    EnoughOfEach(up, low, dig, spec, more);
    AllInCharset(up, low, dig, spec, more);
    ArrangementIsFine(s, pw);
  }

  lemma {:induction false} ArrangementIsFine(s: string, pw: string)
    requires multiset(pw) == multiset(s) && |s| >= MIN
    requires Count(s, IsUpper) >= 2 && Count(s, IsLower) >= 2 && Count(s, Digit) >= 2
    requires (exists c :: c in s && IsSpecial(c)) && forall c :: c in s ==> InCharset(c)
    ensures PasswordProblem(pw, "") == None
  {
    hide Count, IsUpper, IsLower, Digit, InCharset, IsSpecial, Contains;
    SameSize(s, pw);
    SameMembers(s, pw);
    CountOfMultiset(s, pw, IsUpper);
    CountOfMultiset(s, pw, IsLower);
    CountOfMultiset(s, pw, Digit);
    var c :| c in s && IsSpecial(c);
    var i :| 0 <= i < |pw| && pw[i] == c;
  }

  /** Whatever the random outcomes, the password is accepted, and is as long as asked but at least 12. */
  method GeneratePassword(length: int) returns (pw: string)
    ensures PasswordProblem(pw, "") == None
    ensures |pw| == if length < MIN then MIN else length
  {
    var n: nat := if length < MIN then MIN else length;
    var up := Choices(UPPERS, 2);
    var low := Choices(LOWERS, 2);
    var dig := Choices(DIGITS, 2);
    var spec := Choices(SPECIALS, 2);
    var more := Choices(UPPERS + LOWERS + DIGITS, n - 8);
    var all := up + low + dig + spec + more;
    var pick := new char[n](i requires 0 <= i < n => all[i]);
    assert pick[..] == all;
    var js := Shuffle(pick);
    pw := pick[..];
    ArrangedIsFine(up, low, dig, spec, more, pw);
  }
}
