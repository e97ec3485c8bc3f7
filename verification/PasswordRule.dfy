// What the rule for passwords asks, character by character.
module PasswordRule {
  import opened Wrappers
  import opened Basics
  import opened Passwords

  /** Two different places hold a character from lo to hi. */
  predicate TwoFrom(s: string, lo: char, hi: char) {
    exists i, j :: 0 <= i < j < |s| && lo <= s[i] <= hi && lo <= s[j] <= hi
  }

  predicate OneFrom(s: string, lo: char, hi: char) {
    exists i :: 0 <= i < |s| && lo <= s[i] <= hi
  }

  lemma {:induction false} OnePush(s: string, c: char, lo: char, hi: char)
    ensures OneFrom(s + [c], lo, hi) <==> OneFrom(s, lo, hi) || lo <= c <= hi
  {
    var t := s + [c];
    assert t[|s|] == c && forall k :: 0 <= k < |s| ==> t[k] == s[k];
  }

  lemma {:induction false} TwoPush(s: string, c: char, lo: char, hi: char)
    ensures TwoFrom(s + [c], lo, hi) <==> TwoFrom(s, lo, hi) || (OneFrom(s, lo, hi) && lo <= c <= hi)
  {
    var t := s + [c];
    assert t[|s|] == c && forall k :: 0 <= k < |s| ==> t[k] == s[k];
    if TwoFrom(t, lo, hi) && !TwoFrom(s, lo, hi) {
      var i, j :| 0 <= i < j < |t| && lo <= t[i] <= hi && lo <= t[j] <= hi;
      assert j == |s| && t[i] == s[i];
    }
    if OneFrom(s, lo, hi) && lo <= c <= hi {
      var i :| 0 <= i < |s| && lo <= s[i] <= hi;
      assert t[i] == s[i];
    }
  }

  lemma {:induction false} CountsPlaces(s: string, p: char -> bool, lo: char, hi: char)
    requires forall c :: p(c) <==> lo <= c <= hi
    ensures Count(s, p) >= 1 <==> OneFrom(s, lo, hi)
    ensures Count(s, p) >= 2 <==> TwoFrom(s, lo, hi)
    decreases |s|
  {
    if s == "" {
      assert !OneFrom(s, lo, hi) && !TwoFrom(s, lo, hi);
    } else {
      hide OneFrom, TwoFrom;
      var rest, c := s[..|s| - 1], s[|s| - 1];
      CountsPlaces(rest, p, lo, hi);
      assert s == rest + [c];
      OnePush(rest, c, lo, hi);
      TwoPush(rest, c, lo, hi);
    }
  }

  // ---- the username ----

  /** The same letter, large or small, or the same character. */
  predicate SameLetter(c: char, d: char) {
    c == d || ('A' <= c <= 'Z' && d as int == c as int + 32) || ('A' <= d <= 'Z' && c as int == d as int + 32)
  }

  /** The username stands at place i, large and small letters alike. */
  predicate StandsAt(pw: string, username: string, i: nat) {
    i + |username| <= |pw| && forall k :: 0 <= k < |username| ==> SameLetter(pw[i + k], username[k])
  }

  function Lower(c: char): char { if 'A' <= c <= 'Z' then (c as int + 32) as char else c }

  lemma {:induction false} LowerCaseAt(s: string, k: nat)
    requires k < |s|
    ensures LowerCase(s)[k] == Lower(s[k])
    decreases |s|
  {
    if k < |s| - 1 {
      LowerCaseAt(s[..|s| - 1], k);
    }
  }

  lemma {:induction false} PartStands(pw: string, username: string, i: nat)
    ensures PartAt(LowerCase(pw), LowerCase(username), i) <==> StandsAt(pw, username, i)
  {
    hide LowerCase;
    if i + |username| <= |pw| {
      var part := LowerCase(pw)[i..i + |username|];
      forall k: nat | k < |username| ensures part[k] == LowerCase(username)[k] <==> SameLetter(pw[i + k], username[k]) {
        LowerCaseAt(pw, i + k);
        LowerCaseAt(username, k);
      }
      if StandsAt(pw, username, i) {
        assert part == LowerCase(username);
      }
      if part == LowerCase(username) {
        forall k: nat | k < |username| ensures SameLetter(pw[i + k], username[k]) { assert part[k] == LowerCase(username)[k]; }
      }
    }
  }

  lemma {:induction false} ContainsStands(pw: string, username: string)
    ensures Contains(LowerCase(pw), LowerCase(username)) <==> exists i: nat :: StandsAt(pw, username, i)
  {
    hide LowerCase, PartAt;
    forall i: nat ensures PartAt(LowerCase(pw), LowerCase(username), i) <==> StandsAt(pw, username, i) { PartStands(pw, username, i); }
    if i: nat :| StandsAt(pw, username, i) {
      assert PartAt(LowerCase(pw), LowerCase(username), i);
    }
  }

  // ---- the rule ----

  /** A password is fine if and only if it has twelve characters at least, two large letters, two small ones and two
      digits, one of the thirteen signs, nothing but plain characters and no blanks, and not the username in it. */
  lemma {:induction false} FineExactly(pw: string, username: string)
    ensures PasswordProblem(pw, username).None? <==>
              && |pw| >= 12
              && TwoFrom(pw, 'A', 'Z') && TwoFrom(pw, 'a', 'z') && TwoFrom(pw, '0', '9')
              && (exists i :: 0 <= i < |pw| && pw[i] in "#.$@!%&*-_+=?")
              && (forall i :: 0 <= i < |pw| ==>
                    var code := pw[i] as int; code <= 126 && code != 32 && !(9 <= code <= 13) && !(28 <= code <= 31))
              && (username != "" ==> !exists i: nat :: StandsAt(pw, username, i))
  {
    hide Count, TwoFrom, OneFrom, Contains, LowerCase;
    CountsPlaces(pw, IsUpper, 'A', 'Z');
    CountsPlaces(pw, IsLower, 'a', 'z');
    CountsPlaces(pw, Digit, '0', '9');
    ContainsStands(pw, username);
    assert forall c :: InCharset(c) <==>
      var code := c as int; code <= 126 && code != 32 && !(9 <= code <= 13) && !(28 <= code <= 31);
  }
}
