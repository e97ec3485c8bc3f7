// What the dump reader accepts is exactly what a printer of rows may write, and it reads it back unchanged.
module DumpRoundTrip {
  import opened Wrappers
  import opened Basics
  import opened DumpValues
  import opened DumpPrinter

  // ---- finding one's place ----

  /** The text from i on starts with word, then rest. */
  predicate Here(sql: string, i: nat, word: string, rest: string) {
    i <= |sql| && sql[i..] == word + rest
  }

  /** What may follow a value. */
  predicate Ends(rest: string) {
    rest == "" || rest[0] == ' ' || rest[0] == ',' || rest[0] == ')'
  }

  lemma {:induction false} HereSplit(sql: string, i: nat, a: string, b: string, rest: string)
    requires Here(sql, i, a + b, rest)
    ensures i + |a| <= |sql|
    ensures Here(sql, i, a, b + rest) && Here(sql, i + |a|, b, rest)
  {
    assert (a + b) + rest == a + (b + rest);
    assert sql[i..][|a|..] == sql[i + |a|..];
  }

  lemma {:induction false} HereChars(sql: string, i: nat, a: string, rest: string)
    requires Here(sql, i, a, rest)
    ensures i + |a| <= |sql| && At(sql, i, a)
    ensures forall k :: 0 <= k < |a| ==> sql[i + k] == a[k]
    ensures rest != "" ==> i + |a| < |sql| && sql[i + |a|] == rest[0]
    ensures rest == "" ==> i + |a| == |sql|
    ensures Here(sql, i + |a|, "", rest)
  {
    forall k | 0 <= k < |a| ensures sql[i + k] == a[k] { assert sql[i..][k] == sql[i + k]; }
    assert sql[i..i + |a|] == a;
    assert sql[i..][|a|..] == sql[i + |a|..] == rest;
    if rest != "" {
      assert sql[i + |a|..][0] == sql[i + |a|];
    }
  }

  lemma {:induction false} NotAt(sql: string, i: nat, word: string, k: nat)
    requires k < |word|
    requires i + k < |sql| ==> sql[i + k] != word[k]
    ensures !At(sql, i, word)
  {
    if i + |word| <= |sql| {
      assert sql[i..i + |word|][k] == sql[i + k];
    }
  }

  /** A run of characters of a kind ends where the next one is of another kind. */
  lemma {:induction false} AfterRun(sql: string, i: nat, j: nat, p: char -> bool)
    requires i <= j <= |sql|
    requires forall k :: i <= k < j ==> p(sql[k])
    requires j < |sql| ==> !p(sql[j])
    ensures After(sql, i, p) == j
    decreases j - i
  {
    if i < j {
      AfterRun(sql, i + 1, j, p);
    }
  }

  // ---- literals ----

  /** One turn of the loop over a literal. */
  lemma {:induction false} GlyphTurn(sql: string, i: nat, g: Glyph)
    requires GlyphOk(g) && At(sql, i, GlyphText(g))
    ensures ParseText(sql, i) == Extend([GlyphChar(g)], ParseText(sql, i + |GlyphText(g)|))
  {
    if g.Escaped? {
      EscapeIs(g.code);
    }
    assert sql[i] == sql[i..i + |GlyphText(g)|][0];
    assert |GlyphText(g)| > 1 ==> sql[i + 1] == sql[i..i + |GlyphText(g)|][1];
  }

  lemma {:induction false} TextRoundTrip(sql: string, i: nat, glyphs: seq<Glyph>, rest: string)
    requires forall k :: 0 <= k < |glyphs| ==> GlyphOk(glyphs[k])
    requires Here(sql, i, GlyphsText(glyphs) + "'", rest) && (rest == "" || rest[0] != '\'')
    ensures ParseText(sql, i) == Ok(Parsed(GlyphsChars(glyphs), i + |GlyphsText(glyphs)| + 1))
    decreases |glyphs|
  {
    hide Here, GlyphOk, GlyphText, GlyphChar;
    if glyphs == [] {
      assert GlyphsText(glyphs) + "'" == "'";
      HereChars(sql, i, "'", rest);
      assert sql[i + 0] == '\'';
    } else {
      var g, gs := glyphs[0], glyphs[1..];
      assert GlyphsText(glyphs) + "'" == GlyphText(g) + (GlyphsText(gs) + "'");
      HereSplit(sql, i, GlyphText(g), GlyphsText(gs) + "'", rest);
      HereChars(sql, i, GlyphText(g), (GlyphsText(gs) + "'") + rest);
      TextRoundTrip(sql, i + |GlyphText(g)|, gs, rest);
      GlyphTurn(sql, i, g);
    }
  }

  // ---- numbers ----

  /** Digits end at the same place inside the text as in the number alone. */
  lemma {:induction false} DigitsLocal(sql: string, i: nat, t: string, rest: string, k: nat)
    requires Here(sql, i, t, rest) && Ends(rest) && k <= |t|
    ensures i + k <= |sql| && After(sql, i + k, IsDigit()) == i + After(t, k, IsDigit())
  {
    HereChars(sql, i, t, rest);
    var m := After(t, k, IsDigit());
    forall l | i + k <= l < i + m ensures IsDigit()(sql[l]) { assert sql[i + (l - i)] == t[l - i]; }
    assert i + m < |sql| ==> !IsDigit()(sql[i + m]) by {
      if m < |t| {
        assert sql[i + m] == t[m];
      }
    }
    AfterRun(sql, i + k, i + m, IsDigit());
  }

  lemma {:induction false} FractionLocal(sql: string, i: nat, t: string, rest: string, k: nat)
    requires Here(sql, i, t, rest) && Ends(rest) && k <= |t|
    ensures i + k <= |sql| && FractionEnd(sql, i + k) == i + FractionEnd(t, k)
  {
    HereChars(sql, i, t, rest);
    if k < |t| {
      assert sql[i + k] == t[k];
      DigitsLocal(sql, i, t, rest, k + 1);
    }
  }

  lemma {:induction false} ExponentLocal(sql: string, i: nat, t: string, rest: string, f: nat)
    requires Here(sql, i, t, rest) && Ends(rest) && f <= |t|
    ensures i + f <= |sql| && ExponentEnd(sql, i + f) == i + ExponentEnd(t, f)
  {
    HereChars(sql, i, t, rest);
    if f < |t| {
      assert sql[i + f] == t[f];
      if f + 1 < |t| {
        assert sql[i + (f + 1)] == t[f + 1];
      }
      assert ExponentSign(sql, i + f + 1) == i + ExponentSign(t, f + 1);
      DigitsLocal(sql, i, t, rest, ExponentSign(t, f + 1));
    }
  }

  /** A number is recognised inside the text exactly as it is alone. */
  lemma {:induction false} NumberLocal(sql: string, i: nat, t: string, rest: string)
    requires Here(sql, i, t, rest) && Ends(rest)
    ensures MatchNumber(sql, i) == match MatchNumber(t, 0) case None => None case Some(e) => Some(i + e)
  {
    hide After, FractionEnd, ExponentEnd;
    HereChars(sql, i, t, rest);
    var j := if 0 < |t| && t[0] == '-' then 1 else 0;
    assert 0 < |t| ==> sql[i + 0] == t[0];
    DigitsLocal(sql, i, t, rest, j);
    var k := After(t, j, IsDigit());
    FractionLocal(sql, i, t, rest, k);
    ExponentLocal(sql, i, t, rest, FractionEnd(t, k));
  }

  // ---- what a number is ----

  lemma {:induction false} DigitIs(c: char)
    ensures Digit(c) <==> c in "0123456789"
  {
  }

  lemma {:induction false} HexDigitIs(c: char)
    ensures HexDigit(c) <==> c in "0123456789abcdefABCDEF"
  {
  }

  lemma {:induction false} BlankIs(c: char)
    ensures Blank(c) <==> c in " \n\r\t,"
  {
  }

  lemma {:induction false} EscapeIs(c: char)
    ensures Unescape(c) == Escape(c)
  {
  }

  /** Digits with something else behind them, or nothing. */
  lemma {:induction false} DigitsEnd(sql: string, i: nat, digits: string, rest: string)
    requires Here(sql, i, digits, rest) && Digits(digits) && (rest == "" || rest[0] !in "0123456789")
    ensures After(sql, i, IsDigit()) == i + |digits| > i
  {
    HereChars(sql, i, digits, rest);
    forall k | i <= k < i + |digits| ensures IsDigit()(sql[k]) {
      assert sql[i + (k - i)] == digits[k - i];
      DigitIs(sql[k]);
    }
    if rest != "" {
      DigitIs(rest[0]);
    }
    AfterRun(sql, i, i + |digits|, IsDigit());
  }

  lemma {:induction false} ExponentIs(sql: string, f: nat, g: nat)
    requires f < |sql| && sql[f] in "eE" && f + 1 <= g <= f + 2 && g < |sql|
    requires if g == f + 1 then sql[g] in "0123456789" else sql[f + 1] in "+-"
    requires After(sql, g, IsDigit()) == |sql|
    ensures ExponentEnd(sql, f) == |sql|
  {
    hide After;
  }

  lemma {:induction false} SignText(sign: Option<char>, digits: string)
    requires Digits(digits)
    ensures var text := match sign case None => "" case Some(c) => [c];
            |text| + |digits| > 0 && (sign.Some? ==> text[0] == sign.value) && digits[0] in "0123456789"
  {
  }

  lemma {:induction false} PowerEnd(sql: string, f: nat, power: Option<Power>)
    requires Here(sql, f, PowerText(power), "")
    requires power.Some? ==> power.value.letter in "eE" && Digits(power.value.digits)
    requires power.Some? && power.value.sign.Some? ==> power.value.sign.value in "+-"
    ensures f <= |sql| && ExponentEnd(sql, f) == |sql|
  {
    hide Here, After, Digits;
    if power.None? {
      HereChars(sql, f, "", "");
    } else {
      hide ExponentEnd;
      var p := power.value;
      var sign := match p.sign case None => "" case Some(c) => [c];
      HereSplit(sql, f, [p.letter], sign + p.digits, "");
      assert (sign + p.digits) + "" == sign + p.digits;
      LetterThere(sql, f, p.letter, sign + p.digits);
      HereSplit(sql, f + 1, sign, p.digits, "");
      assert p.digits + "" == p.digits;
      SignText(p.sign, p.digits);
      if p.sign.Some? {
        LetterThere(sql, f + 1, p.sign.value, p.digits);
      }
      DigitsThereEnd(sql, f + 1 + |sign|, p.digits);
      ExponentIs(sql, f, f + 1 + |sign|);
    }
  }

  lemma {:induction false} LetterThere(sql: string, f: nat, c: char, rest: string)
    requires Here(sql, f, [c], rest)
    ensures f < |sql| && sql[f] == c
  {
    HereChars(sql, f, [c], rest);
    assert sql[f + 0] == c;
  }

  lemma {:induction false} DigitsThereEnd(sql: string, i: nat, digits: string)
    requires Here(sql, i, digits, "") && Digits(digits)
    ensures i < |sql| && sql[i] in "0123456789" && After(sql, i, IsDigit()) == |sql|
  {
    HereChars(sql, i, digits, "");
    DigitsEnd(sql, i, digits, "");
    assert sql[i + 0] == digits[0];
  }

  lemma {:induction false} TailLetter(power: Option<Power>)
    requires power.Some? ==> power.value.letter in "eE"
    ensures PowerText(power) != "" ==> PowerText(power)[0] in "eE"
  {
  }

  lemma {:induction false} NoPoint(sql: string, k: nat, tail: string)
    requires Here(sql, k, tail, "") && (tail != "" ==> tail[0] in "eE")
    ensures k <= |sql| && FractionEnd(sql, k) == k
  {
    hide After;
    HereChars(sql, k, tail, "");
    assert tail != "" ==> sql[k + 0] == tail[0];
  }

  lemma {:induction false} SomePoint(sql: string, k: nat, digits: string, tail: string)
    requires Here(sql, k, "." + digits, tail) && Digits(digits) && (tail != "" ==> tail[0] in "eE")
    ensures k <= |sql| && FractionEnd(sql, k) == k + 1 + |digits|
  {
    hide Here, After, Digits;
    HereSplit(sql, k, ".", digits, tail);
    LetterThere(sql, k, '.', digits + tail);
    DigitsEnd(sql, k + 1, digits, tail);
  }

  lemma {:induction false} PointEnd(sql: string, k: nat, point: Option<string>, power: Option<Power>)
    requires Here(sql, k, PointText(point) + PowerText(power), "")
    requires point.Some? ==> Digits(point.value)
    requires power.Some? ==> power.value.letter in "eE"
    ensures k <= |sql| && FractionEnd(sql, k) == k + |PointText(point)|
    ensures Here(sql, k + |PointText(point)|, PowerText(power), "")
  {
    hide Here, After, PowerText, Digits, FractionEnd;
    var tail := PowerText(power);
    TailLetter(power);
    HereSplit(sql, k, PointText(point), tail, "");
    assert tail + "" == tail;
    if point.Some? {
      SomePoint(sql, k, point.value, tail);
    } else {
      assert "" + tail == tail;
      NoPoint(sql, k, tail);
    }
  }

  lemma {:induction false} MatchIs(t: string, j: nat, k: nat)
    requires j == (if t != "" && t[0] == '-' then 1 else 0) && j < k <= |t| && After(t, j, IsDigit()) == k
    requires ExponentEnd(t, FractionEnd(t, k)) == |t|
    ensures MatchNumber(t, 0) == Some(|t|)
  {
    hide After, FractionEnd, ExponentEnd;
  }

  lemma {:induction false} TailStart(n: Numeral)
    requires NumeralOk(n)
    ensures var tail := PointText(n.point) + PowerText(n.power); tail != "" ==> tail[0] in ".eE"
    ensures n.whole != "" && n.whole[0] != '-'
  {
    assert n.whole[0] in "0123456789";
  }

  lemma {:induction false} NumeralMatches(n: Numeral)
    requires NumeralOk(n)
    ensures MatchNumber(NumeralText(n), 0) == Some(|NumeralText(n)|)
  {
    hide Here, After, FractionEnd, ExponentEnd, MatchNumber, PointText, PowerText, NumeralOk;
    var t, start := NumeralText(n), if n.minus then "-" else "";
    var tail := PointText(n.point) + PowerText(n.power);
    TailStart(n);
    Whole(t);
    HereSplit(t, 0, start, n.whole + tail, "");
    Middle(t, |start|, n, tail);
    assert n.minus ==> t[0] == '-';
    assert !n.minus ==> t[0] == n.whole[0];
    MatchIs(t, |start|, |start| + |n.whole|);
  }

  /** The digits, the point and the power of a number, from j on. */
  lemma {:induction false} WholeThere(t: string, j: nat, whole: string, tail: string)
    requires Here(t, j, whole, tail) && Digits(whole) && (tail != "" ==> tail[0] in ".eE")
    ensures j + |whole| <= |t| && After(t, j, IsDigit()) == j + |whole| > j && t[j] in "0123456789"
  {
    hide Here, After;
    HereChars(t, j, whole, tail);
    DigitsEnd(t, j, whole, tail);
    assert t[j + 0] == whole[0];
  }

  lemma {:induction false} Middle(t: string, j: nat, n: Numeral, tail: string)
    requires NumeralOk(n) && tail == PointText(n.point) + PowerText(n.power) && Here(t, j, n.whole + tail, "")
    requires tail != "" ==> tail[0] in ".eE"
    ensures j + |n.whole| <= |t| && After(t, j, IsDigit()) == j + |n.whole| > j
    ensures t[j] in "0123456789"
    ensures ExponentEnd(t, FractionEnd(t, j + |n.whole|)) == |t|
  {
    hide Here, After, FractionEnd, ExponentEnd, PointText, PowerText;
    HereSplit(t, j, n.whole, tail, "");
    assert tail + "" == tail;
    WholeThere(t, j, n.whole, tail);
    PointEnd(t, j + |n.whole|, n.point, n.power);
    PowerEnd(t, j + |n.whole| + |PointText(n.point)|, n.power);
  }

  lemma {:induction false} Whole(t: string)
    ensures Here(t, 0, t, "")
  {
    assert t[0..] == t + "";
  }

  lemma {:induction false} DigitsThere(t: string, i: nat)
    requires i <= |t| && After(t, i, IsDigit()) > i
    ensures Digits(t[i..After(t, i, IsDigit())])
  {
    var j := After(t, i, IsDigit());
    forall k | 0 <= k < j - i ensures t[i..j][k] in "0123456789" {
      assert IsDigit()(t[i + k]);
      DigitIs(t[i + k]);
    }
  }

  /** The power of ten from f to the end. */
  lemma {:induction false} PowerThere(t: string, f: nat) returns (power: Option<Power>)
    requires f <= |t| && ExponentEnd(t, f) == |t|
    ensures PowerText(power) == t[f..]
    ensures power.Some? ==>
              && power.value.letter in "eE" && Digits(power.value.digits)
              && (power.value.sign.Some? ==> power.value.sign.value in "+-")
  {
    hide After, Digits;
    if f == |t| {
      power := None;
    } else {
      var g := ExponentSign(t, f + 1);
      DigitsThere(t, g);
      hide ExponentEnd;
      assert t[g..After(t, g, IsDigit())] == t[g..];
      assert t[f..] == [t[f]] + t[f + 1..];
      if g > f + 1 {
        assert t[f + 1..] == [t[f + 1]] + t[g..];
        power := Some(Power(t[f], Some(t[f + 1]), t[g..]));
      } else {
        assert "" + t[g..] == t[g..];
        power := Some(Power(t[f], None, t[g..]));
      }
    }
  }

  /** The point and its digits, from k on. */
  lemma {:induction false} PointThere(t: string, k: nat) returns (point: Option<string>)
    requires k <= |t|
    ensures PointText(point) == t[k..FractionEnd(t, k)] && (point.Some? ==> Digits(point.value))
  {
    var f := FractionEnd(t, k);
    if f > k {
      DigitsThere(t, k + 1);
      point := Some(t[k + 1..f]);
      assert t[k..f] == "." + t[k + 1..f];
    } else {
      point := None;
    }
  }

  lemma {:induction false} Pieces(t: string, minus: bool, j: nat, k: nat, f: nat)
    requires j <= k <= f <= |t| && j == (if minus then 1 else 0) && (minus ==> t[0] == '-')
    ensures t == (if minus then "-" else "") + (t[j..k] + (t[k..f] + t[f..]))
  {
    assert t[k..] == t[k..f] + t[f..];
    assert t[j..] == t[j..k] + t[k..];
  }

  lemma {:induction false} MatchedIsNumeral(t: string)
    requires MatchNumber(t, 0) == Some(|t|)
    ensures IsNumeral(t)
  {
    hide After, ExponentEnd, FractionEnd, PointText, PowerText, Digits;
    var minus := t != "" && t[0] == '-';
    var j := if minus then 1 else 0;
    var k := After(t, j, IsDigit());
    var f := FractionEnd(t, k);
    hide MatchNumber;
    DigitsThere(t, j);
    var point := PointThere(t, k);
    var power := PowerThere(t, f);
    var n := Numeral(minus, t[j..k], point, power);
    Pieces(t, minus, j, k, f);
    assert NumeralOk(n) && NumeralText(n) == t;
  }

  /** A text is a number, all of it, for the reader if and only if it is one. */
  lemma {:induction false} NumberExactly(t: string)
    ensures MatchNumber(t, 0) == Some(|t|) <==> IsNumeral(t)
  {
    hide MatchNumber;
    if IsNumeral(t) {
      var n :| NumeralOk(n) && NumeralText(n) == t;
      NumeralMatches(n);
    }
    if MatchNumber(t, 0) == Some(|t|) {
      MatchedIsNumeral(t);
    }
  }

  /** A number starts with a digit or its sign, and is not the start of a hexadecimal one. */
  lemma {:induction false} NumberStart(t: string)
    requires MatchNumber(t, 0) == Some(|t|)
    ensures t != "" && (t[0] == '-' || Digit(t[0])) && (|t| > 1 ==> t[1] != 'x')
  {
    var j := if t[0] == '-' then 1 else 0;
    assert IsDigit()(t[j]);
    if |t| > 1 && Digit(t[0]) && !Digit(t[1]) {
      AfterRun(t, 0, 1, IsDigit());
    }
  }

  // ---- values ----

  lemma {:induction false} NumberRoundTrip(sql: string, i: nat, t: string, rest: string)
    requires TokenOk(NumberToken(t)) && Here(sql, i, t, rest) && Ends(rest)
    ensures ParseValue(sql, i) == Ok(Parsed(Number(t), i + |t|))
  {
    hide MatchNumber, IsNumeral;
    NumberExactly(t);
    HereChars(sql, i, t, rest);
    NumberLocal(sql, i, t, rest);
    NumberStart(t);
    assert sql[i] == sql[i + 0] == t[0];
    assert |t| > 1 ==> sql[i + 1] == t[1];
    NotAt(sql, i, "0x", 1);
    NotAt(sql, i, "NULL", 0);
    NotAt(sql, i, "_binary '", 0);
  }

  lemma {:induction false} HexRun(sql: string, i: nat, digits: string, rest: string)
    requires TokenOk(HexToken(digits)) && Here(sql, i, digits, rest) && Ends(rest)
    ensures i + |digits| <= |sql| && After(sql, i, IsHexDigit()) == i + |digits| && At(sql, i, digits)
  {
    HereChars(sql, i, digits, rest);
    forall k | i <= k < i + |digits| ensures IsHexDigit()(sql[k]) {
      assert sql[i + (k - i)] == digits[k - i];
      HexDigitIs(sql[k]);
    }
    AfterRun(sql, i, i + |digits|, IsHexDigit());
  }

  lemma {:induction false} HexStart(sql: string, i: nat, rest: string)
    requires Here(sql, i, "0x", rest)
    ensures At(sql, i, "0x") && sql[i] == '0' && !At(sql, i, "NULL") && !At(sql, i, "_binary '")
  {
    hide Here;
    HereChars(sql, i, "0x", rest);
    assert sql[i] == sql[i + 0] == '0';
    NotAt(sql, i, "NULL", 0);
    NotAt(sql, i, "_binary '", 0);
  }

  lemma {:induction false} HexRoundTrip(sql: string, i: nat, digits: string, rest: string)
    requires TokenOk(HexToken(digits)) && Here(sql, i, "0x" + digits, rest) && Ends(rest)
    ensures ParseValue(sql, i) == Ok(Parsed(Hex(digits), i + 2 + |digits|))
  {
    hide Here, MatchNumber, ParseText, After, HexDigit, Ends;
    HereSplit(sql, i, "0x", digits, rest);
    HexStart(sql, i, digits + rest);
    HexRun(sql, i + 2, digits, rest);
  }

  lemma {:induction false} TextValueRoundTrip(sql: string, i: nat, binary: bool, glyphs: seq<Glyph>, rest: string)
    requires TokenOk(TextToken(binary, glyphs)) && Here(sql, i, PrintToken(TextToken(binary, glyphs)), rest) && Ends(rest)
    ensures ParseValue(sql, i) == Ok(Parsed(Text(GlyphsChars(glyphs)), i + |PrintToken(TextToken(binary, glyphs))|))
  {
    hide Here;
    hide ParseText, GlyphsText, GlyphsChars;
    var start := if binary then "_binary '" else "'";
    var tail := GlyphsText(glyphs) + "'";
    HereSplit(sql, i, start, tail, rest);
    HereChars(sql, i, start, tail + rest);
    assert sql[i] == sql[i + 0] == start[0];
    TextRoundTrip(sql, i + |start|, glyphs, rest);
  }

  lemma {:induction false} NullRoundTrip(sql: string, i: nat, rest: string)
    requires Here(sql, i, "NULL", rest)
    ensures ParseValue(sql, i) == Ok(Parsed(Null, i + 4))
  {
    hide Here, MatchNumber, ParseText;
    HereChars(sql, i, "NULL", rest);
    assert sql[i] == sql[i + 0] == 'N';
    NotAt(sql, i, "_binary '", 0);
  }

  /** A token, whatever comes after it, is read as what it means. */
  lemma {:induction false} ValueRoundTrip(sql: string, i: nat, t: Token, rest: string)
    requires TokenOk(t) && Here(sql, i, PrintToken(t), rest) && Ends(rest)
    ensures ParseValue(sql, i) == Ok(Parsed(Meaning(t), i + |PrintToken(t)|))
  {
    hide ParseValue, Here, MatchNumber, Ends;
    match t
    case NullToken => NullRoundTrip(sql, i, rest);
    case NumberToken(text) => NumberRoundTrip(sql, i, text, rest);
    case HexToken(digits) => HexRoundTrip(sql, i, digits, rest);
    case TextToken(binary, glyphs) => TextValueRoundTrip(sql, i, binary, glyphs, rest);
  }

  lemma {:induction false} TokenStart(t: Token)
    requires TokenOk(t)
    ensures PrintToken(t) != "" && PrintToken(t)[0] != ' '
  {
    hide IsNumeral, MatchNumber;
    if t.NumberToken? {
      NumberExactly(t.text);
      NumberStart(t.text);
    }
  }

  lemma {:induction false} SpacesRun(sql: string, i: nat, n: nat, rest: string)
    requires Here(sql, i, Spaces(n), rest) && rest != "" && rest[0] != ' '
    ensures i + n < |sql| && After(sql, i, IsSpace()) == i + n && Here(sql, i + n, "", rest)
  {
    HereChars(sql, i, Spaces(n), rest);
    forall k | i <= k < i + n ensures IsSpace()(sql[k]) { assert sql[i + (k - i)] == Spaces(n)[k - i]; }
    AfterRun(sql, i, i + n, IsSpace());
  }

  // ---- rows ----

  lemma {:induction false} CellParts(sql: string, i: nat, before: nat, token: string, after: nat, rest: string)
    requires Here(sql, i, Spaces(before) + (token + Spaces(after)), rest)
    ensures Here(sql, i, Spaces(before), token + (Spaces(after) + rest))
    ensures Here(sql, i + before, token, Spaces(after) + rest)
    ensures Here(sql, i + before + |token|, Spaces(after), rest)
  {
    hide Here, Spaces;
    HereSplit(sql, i, Spaces(before), token + Spaces(after), rest);
    HereSplit(sql, i + before, token, Spaces(after), rest);
    assert (token + Spaces(after)) + rest == token + (Spaces(after) + rest);
  }

  lemma {:induction false} SpacesEnd(after: nat, rest: string)
    requires rest != "" && (rest[0] == ',' || rest[0] == ')')
    ensures Ends(Spaces(after) + rest)
  {
  }

  /** A printed cell: its spaces are skipped on both sides and its value is read. */
  lemma {:induction false} CellRoundTrip(sql: string, i: nat, c: Cell, rest: string)
    requires TokenOk(c.token) && Here(sql, i, PrintCell(c), rest)
    requires rest != "" && (rest[0] == ',' || rest[0] == ')')
    ensures ParseValue(sql, After(sql, i, IsSpace())) == Ok(Parsed(Meaning(c.token), i + c.before + |PrintToken(c.token)|))
    ensures After(sql, i + c.before + |PrintToken(c.token)|, IsSpace()) == i + |PrintCell(c)| < |sql|
    ensures sql[i + |PrintCell(c)|] == rest[0]
  {
    hide ParseValue, PrintToken, TokenOk, Meaning, After, Here, Spaces, At, Ends;
    var token := PrintToken(c.token);
    var tail := Spaces(c.after) + rest;
    CellParts(sql, i, c.before, token, c.after, rest);
    TokenStart(c.token);
    assert (token + tail)[0] == token[0];
    SpacesRun(sql, i, c.before, token + tail);
    SpacesEnd(c.after, rest);
    ValueRoundTrip(sql, i + c.before, c.token, tail);
    SpacesRun(sql, i + c.before + |token|, c.after, rest);
    HereChars(sql, i, PrintCell(c), rest);
  }

  lemma {:induction false} RowMeaningCons(cells: seq<Cell>)
    requires cells != []
    ensures RowMeaning(cells) == [Meaning(cells[0].token)] + RowMeaning(cells[1..])
    ensures |cells| == 1 ==> RowMeaning(cells) == [Meaning(cells[0].token)]
  {
  }

  lemma {:induction false} RowRoundTrip(sql: string, i: nat, cells: seq<Cell>, rest: string)
    requires cells != [] && (forall k :: 0 <= k < |cells| ==> TokenOk(cells[k].token))
    requires Here(sql, i, PrintCells(cells), rest)
    ensures ParseRow(sql, i) == Ok(Parsed(RowMeaning(cells), i + |PrintCells(cells)|))
    decreases |cells|
  {
    hide ParseValue, PrintCell, TokenOk, Meaning, After, Here, At, RowMeaning, ParseRow;
    var c := cells[0];
    var cell := PrintCell(c);
    RowMeaningCons(cells);
    assert i <= |sql| by { HereChars(sql, i, PrintCells(cells), rest); }
    RowCases(sql, i);
    if |cells| == 1 {
      HereSplit(sql, i, cell, ")", rest);
      CellRoundTrip(sql, i, c, ")" + rest);
    } else {
      var more := PrintCells(cells[1..]);
      HereSplit(sql, i, cell, "," + more, rest);
      CellRoundTrip(sql, i, c, ("," + more) + rest);
      HereSplit(sql, i + |cell|, ",", more, rest);
      RowRoundTrip(sql, i + |cell| + 1, cells[1..], rest);
    }
  }

  lemma {:induction false} GapRun(sql: string, i: nat, gap: string, rest: string)
    requires Here(sql, i, gap, rest) && AllBlank(gap) && rest != "" && !Blank(rest[0])
    ensures i + |gap| < |sql| && After(sql, i, IsBlank()) == i + |gap| && sql[i + |gap|] == rest[0]
  {
    HereChars(sql, i, gap, rest);
    forall k | i <= k < i + |gap| ensures IsBlank()(sql[k]) {
      assert sql[i + (k - i)] == gap[k - i];
      BlankIs(sql[k]);
    }
    AfterRun(sql, i, i + |gap|, IsBlank());
  }

  lemma {:induction false} RowsCons(lines: seq<Line>)
    requires lines != []
    ensures Rows(lines) == [RowMeaning(lines[0].cells)] + Rows(lines[1..])
  {
  }

  /** One turn of the loop over the rows. */
  lemma {:induction false} RowsTurn(sql: string, i: nat, j: nat)
    requires i <= |sql| && After(sql, i, IsBlank()) == j < |sql|
    ensures sql[j] == ';' ==> ParseRows(sql, i) == Ok(Parsed([], j + 1))
    ensures sql[j] == '(' && ParseRow(sql, j + 1).Ok? && ParseRows(sql, ParseRow(sql, j + 1).value.next).Ok? ==>
              var row := ParseRow(sql, j + 1).value;
              var more := ParseRows(sql, row.next).value;
              ParseRows(sql, i) == Ok(Parsed([row.value] + more.value, more.next))
  {
    hide ParseRow, After;
  }

  lemma {:induction false} LineRoundTrip(sql: string, i: nat, line: Line, more: string, rest: string)
    requires LineOk(line) && Here(sql, i, line.gap + ("(" + (PrintCells(line.cells) + more)), rest)
    ensures i + |line.gap| + 1 + |PrintCells(line.cells)| <= |sql|
    ensures After(sql, i, IsBlank()) == i + |line.gap| && sql[i + |line.gap|] == '('
    ensures ParseRow(sql, i + |line.gap| + 1)
         == Ok(Parsed(RowMeaning(line.cells), i + |line.gap| + 1 + |PrintCells(line.cells)|))
    ensures Here(sql, i + |line.gap| + 1 + |PrintCells(line.cells)|, more, rest)
  {
    hide ParseRow, PrintCells, TokenOk, RowMeaning, After, Here, At;
    var cells, start := PrintCells(line.cells), i + |line.gap| + 1;
    HereSplit(sql, i, line.gap, "(" + (cells + more), rest);
    GapRun(sql, i, line.gap, ("(" + (cells + more)) + rest);
    HereSplit(sql, start - 1, "(", cells + more, rest);
    HereSplit(sql, start, cells, more, rest);
    RowRoundTrip(sql, start, line.cells, more + rest);
  }

  /** Every printing of every list of rows is read back as those rows, up to just after the semicolon. */
  lemma {:induction false} RowsRoundTrip(sql: string, i: nat, lines: seq<Line>, last: string, rest: string)
    requires LinesOk(lines) && AllBlank(last) && Here(sql, i, PrintLines(lines, last), rest)
    ensures ParseRows(sql, i) == Ok(Parsed(Rows(lines), i + |PrintLines(lines, last)|))
    decreases |lines|
  {
    hide ParseRow, ParseRows, PrintCells, TokenOk, RowMeaning, After, Here, At, Rows;
    assert i <= |sql| by { HereChars(sql, i, PrintLines(lines, last), rest); }
    if lines == [] {
      HereSplit(sql, i, last, ";", rest);
      GapRun(sql, i, last, ";" + rest);
      RowsTurn(sql, i, i + |last|);
      assert Rows(lines) == [] by { RowsNil(); }
    } else {
      var more := PrintLines(lines[1..], last);
      var next := i + |lines[0].gap| + 1 + |PrintCells(lines[0].cells)|;
      LineRoundTrip(sql, i, lines[0], more, rest);
      RowsRoundTrip(sql, next, lines[1..], last, rest);
      RowsTurn(sql, i, i + |lines[0].gap|);
      RowsCons(lines);
    }
  }

  lemma {:induction false} RowsNil()
    ensures Rows([]) == []
  {
  }

  // ---- what is refused, and why ----

  /** Rows with nothing after them yet. */
  function PrintRows(lines: seq<Line>): string
    requires LinesOk(lines)
  {
    if lines == [] then "" else lines[0].gap + ("(" + (PrintCells(lines[0].cells) + PrintRows(lines[1..])))
  }

  lemma {:induction false} RowsGoOn(sql: string, i: nat, j: nat)
    requires i <= |sql| && After(sql, i, IsBlank()) == j < |sql| && sql[j] == '(' && ParseRow(sql, j + 1).Ok?
    ensures var row := ParseRow(sql, j + 1).value; ParseRows(sql, i) == Extend([row.value], ParseRows(sql, row.next))
  {
    hide ParseRow, After;
  }

  /** Rows that are in order leave the answer to what comes after them. */
  lemma {:induction false} RowsPass(sql: string, i: nat, lines: seq<Line>, rest: string)
    requires LinesOk(lines) && Here(sql, i, PrintRows(lines), rest)
    ensures i + |PrintRows(lines)| <= |sql| && Here(sql, i + |PrintRows(lines)|, "", rest)
    ensures ParseRows(sql, i) == Extend(Rows(lines), ParseRows(sql, i + |PrintRows(lines)|))
    decreases |lines|
  {
    hide ParseRow, ParseRows, PrintCells, TokenOk, RowMeaning, After, Here, At, Rows;
    HereChars(sql, i, PrintRows(lines), rest);
    if lines == [] {
      RowsNil();
      ExtendNone(ParseRows(sql, i));
    } else {
      var more := PrintRows(lines[1..]);
      var next := i + |lines[0].gap| + 1 + |PrintCells(lines[0].cells)|;
      LineRoundTrip(sql, i, lines[0], more, rest);
      RowsPass(sql, next, lines[1..], rest);
      RowsGoOn(sql, i, i + |lines[0].gap|);
      RowsCons(lines);
      ExtendMore(RowMeaning(lines[0].cells), Rows(lines[1..]), ParseRows(sql, next + |more|));
    }
  }

  lemma {:induction false} ExtendMore<T>(x: T, done: seq<T>, r: Result<Parsed<seq<T>>, Error>)
    ensures Extend([x], Extend(done, r)) == Extend([x] + done, r)
  {
    if r.Ok? {
      assert [x] + (done + r.value.value) == ([x] + done) + r.value.value;
    }
  }

  /** After rows that are in order and blanks: the end means that the text is cut off; anything but a parenthesis or a
      semicolon does not belong there; and a value has to start like one. */
  lemma {:induction false} RefusedBecause(sql: string, lines: seq<Line>, gap: string, rest: string)
    requires LinesOk(lines) && AllBlank(gap) && Here(sql, 0, PrintRows(lines), gap + rest)
    ensures rest == "" ==> ParseRows(sql, 0) == Err(Truncated)
    ensures rest != "" && rest[0] !in " \n\r\t,(;" ==> ParseRows(sql, 0) == Err(UnexpectedInInsert)
    ensures |rest| == 1 && rest[0] == '(' ==> ParseRows(sql, 0) == Err(Truncated)
    ensures |rest| >= 2 && rest[0] == '(' && rest[1] !in " '_N-0123456789" ==> ParseRows(sql, 0) == Err(CannotParse)
  {
    hide ParseRow, ParseRows, ParseValue, PrintRows, TokenOk, After, Here, At, Rows;
    var i := |PrintRows(lines)|;
    RowsPass(sql, 0, lines, gap + rest);
    TailRefused(sql, i, gap, rest);
  }

  lemma {:induction false} TailRefused(sql: string, i: nat, gap: string, rest: string)
    requires i <= |sql| && AllBlank(gap) && Here(sql, i, "", gap + rest)
    ensures rest == "" ==> ParseRows(sql, i) == Err(Truncated)
    ensures rest != "" && rest[0] !in " \n\r\t,(;" ==> ParseRows(sql, i) == Err(UnexpectedInInsert)
    ensures |rest| == 1 && rest[0] == '(' ==> ParseRows(sql, i) == Err(Truncated)
    ensures |rest| >= 2 && rest[0] == '(' && rest[1] !in " '_N-0123456789" ==> ParseRows(sql, i) == Err(CannotParse)
  {
    hide ParseRow, ParseRows, ParseValue, After, Here, At;
    assert Here(sql, i, gap, rest) by { TailHere(sql, i, gap, rest); }
    HereChars(sql, i, gap, rest);
    if rest == "" {
      forall k | i <= k < |sql| ensures IsBlank()(sql[k]) {
        assert sql[i + (k - i)] == gap[k - i];
        BlankIs(sql[k]);
      }
      AfterRun(sql, i, |sql|, IsBlank());
      RowsStop(sql, i);
    } else if rest[0] !in " \n\r\t," {
      BlankIs(rest[0]);
      GapRun(sql, i, gap, rest);
      RowsStop(sql, i);
      if rest[0] == '(' && |rest| == 1 {
        assert i + |gap| + 1 == |sql| by { TailLength(sql, i, gap, rest); }
        NothingThere(sql, |sql|);
      } else if rest[0] == '(' && rest[1] !in " '_N-0123456789" {
        assert i + |gap| + 1 < |sql| && sql[i + |gap| + 1] == rest[1] by { TailLength(sql, i, gap, rest); }
        NoValue(sql, i + |gap| + 1);
      }
    }
  }

  lemma {:induction false} TailHere(sql: string, i: nat, gap: string, rest: string)
    requires Here(sql, i, "", gap + rest)
    ensures Here(sql, i, gap, rest)
  {
    assert "" + (gap + rest) == gap + rest;
  }

  lemma {:induction false} TailLength(sql: string, i: nat, gap: string, rest: string)
    requires Here(sql, i, gap, rest)
    ensures i + |gap| + |rest| == |sql|
    ensures |rest| >= 2 ==> sql[i + |gap| + 1] == rest[1]
  {
    assert sql[i..] == gap + rest;
    assert |rest| >= 2 ==> sql[i..][|gap| + 1] == rest[1];
  }

  lemma {:induction false} RowsStop(sql: string, i: nat)
    requires i <= |sql|
    ensures var j := After(sql, i, IsBlank());
            && (j >= |sql| ==> ParseRows(sql, i) == Err(Truncated))
            && (j < |sql| && sql[j] != ';' && sql[j] != '(' ==> ParseRows(sql, i) == Err(UnexpectedInInsert))
            && (j < |sql| && sql[j] == '(' && ParseRow(sql, j + 1).Err? ==> ParseRows(sql, i) == Err(ParseRow(sql, j + 1).error))
  {
    hide ParseRow, After;
  }

  lemma {:induction false} NothingThere(sql: string, i: nat)
    requires i == |sql|
    ensures ParseRow(sql, i) == Err(Truncated)
  {
    RowCases(sql, i);
  }

  lemma {:induction false} NoValue(sql: string, i: nat)
    requires i < |sql| && sql[i] !in " '_N-0123456789"
    ensures ParseRow(sql, i) == Err(CannotParse)
  {
    DigitIs(sql[i]);
    NotAt(sql, i, "0x", 0);
    NotAt(sql, i, "NULL", 0);
    NotAt(sql, i, "_binary '", 0);
    RowCases(sql, i);
  }

  // ---- whatever is read was printed ----

  lemma {:induction false} HereJoin(sql: string, i: nat, a: string, b: string, rest: string)
    requires At(sql, i, a) && Here(sql, i + |a|, b, rest)
    ensures Here(sql, i, a + b, rest)
  {
    assert sql[i..] == sql[i..i + |a|] + sql[i + |a|..];
    assert a + (b + rest) == (a + b) + rest;
  }

  lemma {:induction false} TextWasPrinted(sql: string, i: nat) returns (glyphs: seq<Glyph>)
    requires ParseText(sql, i).Ok?
    ensures forall k :: 0 <= k < |glyphs| ==> GlyphOk(glyphs[k])
    ensures var p := ParseText(sql, i).value;
            p.value == GlyphsChars(glyphs) && Here(sql, i, GlyphsText(glyphs) + "'", sql[p.next..])
    decreases |sql| - i
  {
    var p := ParseText(sql, i).value;
    if sql[i] == '\'' && !(i + 1 < |sql| && sql[i + 1] == '\'') {
      glyphs := [];
      assert GlyphsText(glyphs) + "'" == "'" == sql[i..i + 1];
      assert sql[i..] == sql[i..i + 1] + sql[i + 1..];
    } else {
      if sql[i] == '\\' {
        EscapeIs(sql[i + 1]);
      }
      var g := if sql[i] == '\\' then Escaped(sql[i + 1]) else if sql[i] == '\'' then Doubled else Plain(sql[i]);
      assert GlyphText(g) == sql[i..i + |GlyphText(g)|];
      var more := TextWasPrinted(sql, i + |GlyphText(g)|);
      glyphs := [g] + more;
      HereJoin(sql, i, GlyphText(g), GlyphsText(more) + "'", sql[p.next..]);
      assert GlyphsText(glyphs) + "'" == GlyphText(g) + (GlyphsText(more) + "'");
    }
  }

  lemma {:induction false} TextValueWasPrinted(sql: string, i: nat) returns (t: Token)
    requires ParseValue(sql, i).Ok? && ParseValue(sql, i).value.value.Text?
    ensures TokenOk(t) && Meaning(t) == ParseValue(sql, i).value.value
    ensures Here(sql, i, PrintToken(t), sql[ParseValue(sql, i).value.next..])
  {
    hide ParseText, GlyphsText, GlyphsChars, MatchNumber, After;
    var start := if sql[i] == '\'' then "'" else "_binary '";
    assert At(sql, i, start);
    var glyphs := TextWasPrinted(sql, i + |start|);
    t := TextToken(sql[i] != '\'', glyphs);
    HereJoin(sql, i, start, GlyphsText(glyphs) + "'", sql[ParseValue(sql, i).value.next..]);
  }

  lemma {:induction false} ValueWasPrinted(sql: string, i: nat) returns (t: Token)
    requires ParseValue(sql, i).Ok? && Ends(sql[ParseValue(sql, i).value.next..])
    ensures TokenOk(t) && Meaning(t) == ParseValue(sql, i).value.value
    ensures Here(sql, i, PrintToken(t), sql[ParseValue(sql, i).value.next..])
  {
    hide ParseText, MatchNumber, IsNumeral;
    var p := ParseValue(sql, i).value;
    var text := sql[i..p.next];
    assert sql[i..] == text + sql[p.next..];
    match p.value
    case Text(_) => t := TextValueWasPrinted(sql, i);
    case Null => t := NullToken;
    case Number(_) =>
      t := NumberToken(text);
      NumberLocal(sql, i, text, sql[p.next..]);
      NumberExactly(text);
    case Hex(digits) =>
      t := HexToken(digits);
      assert text == sql[i..i + 2] + sql[i + 2..p.next];
      forall k | 0 <= k < |digits| ensures digits[k] in "0123456789abcdefABCDEF" {
        assert IsHexDigit()(sql[i + 2 + k]);
        HexDigitIs(digits[k]);
      }
  }

  lemma {:induction false} Followed(sql: string, i: nat, a: string, j: nat)
    requires j <= |sql| && Here(sql, i, a, sql[j..])
    ensures At(sql, i, a) && i + |a| == j
  {
    HereChars(sql, i, a, sql[j..]);
    assert |sql| - i == |a| + |sql[j..]|;
  }

  lemma {:induction false} OneChar(sql: string, j: nat, c: char)
    requires j < |sql| && sql[j] == c
    ensures At(sql, j, [c]) && Here(sql, j, [c], sql[j + 1..])
  {
    assert sql[j..j + 1] == [c];
    assert sql[j..] == sql[j..j + 1] + sql[j + 1..];
  }

  lemma {:induction false} SpacesWere(sql: string, i: nat)
    requires i <= |sql|
    ensures var j := After(sql, i, IsSpace());
            At(sql, i, Spaces(j - i)) && Here(sql, i, Spaces(j - i), sql[j..])
  {
    var j := After(sql, i, IsSpace());
    assert forall k :: i <= k < j ==> IsSpace()(sql[k]);
    assert sql[i..j] == Spaces(j - i);
    assert sql[i..] == sql[i..j] + sql[j..];
  }

  lemma {:induction false} EndsThere(sql: string, m: nat)
    requires m <= |sql| && After(sql, m, IsSpace()) < |sql|
    requires sql[After(sql, m, IsSpace())] == ',' || sql[After(sql, m, IsSpace())] == ')'
    ensures Ends(sql[m..])
  {
    var j := After(sql, m, IsSpace());
    assert m < j ==> IsSpace()(sql[m]);
    assert sql[m..][0] == sql[m];
  }

  lemma {:induction false} CellWasPrinted(sql: string, i: nat, m: nat, j: nat) returns (c: Cell)
    requires i <= |sql| && ParseValue(sql, After(sql, i, IsSpace())).Ok?
    requires m == ParseValue(sql, After(sql, i, IsSpace())).value.next && j == After(sql, m, IsSpace()) < |sql|
    requires sql[j] == ',' || sql[j] == ')'
    ensures TokenOk(c.token) && Meaning(c.token) == ParseValue(sql, After(sql, i, IsSpace())).value.value
    ensures Here(sql, i, PrintCell(c), sql[j..])
  {
    hide ParseValue, TokenOk, PrintToken, Meaning, After, Here, At, Ends, Spaces;
    var s := After(sql, i, IsSpace());
    EndsThere(sql, m);
    var t := ValueWasPrinted(sql, s);
    c := Cell(s - i, t, j - m);
    SpacesWere(sql, i);
    SpacesWere(sql, m);
    Followed(sql, s, PrintToken(t), m);
    HereJoin(sql, s, PrintToken(t), Spaces(c.after), sql[j..]);
    HereJoin(sql, i, Spaces(c.before), PrintToken(t) + Spaces(c.after), sql[j..]);
  }

  lemma {:induction false} RowWasPrinted(sql: string, i: nat) returns (cells: seq<Cell>)
    requires i <= |sql| && ParseRow(sql, i).Ok?
    ensures cells != [] && (forall k :: 0 <= k < |cells| ==> TokenOk(cells[k].token))
    ensures RowMeaning(cells) == ParseRow(sql, i).value.value
    ensures Here(sql, i, PrintCells(cells), sql[ParseRow(sql, i).value.next..])
    decreases |sql| - i
  {
    hide ParseValue, ParseRow, TokenOk, PrintCell, Meaning, After, RowMeaning, Here, At;
    RowCases(sql, i);
    var p := ParseRow(sql, i).value;
    var v := ParseValue(sql, After(sql, i, IsSpace())).value;
    var j := After(sql, v.next, IsSpace());
    var c := CellWasPrinted(sql, i, v.next, j);
    Followed(sql, i, PrintCell(c), j);
    OneChar(sql, j, sql[j]);
    if sql[j] == ')' {
      cells := [c];
      HereJoin(sql, i, PrintCell(c), ")", sql[j + 1..]);
    } else {
      var more := RowWasPrinted(sql, j + 1);
      cells := [c] + more;
      HereJoin(sql, j, ",", PrintCells(more), sql[p.next..]);
      HereJoin(sql, i, PrintCell(c), "," + PrintCells(more), sql[p.next..]);
      assert cells[1..] == more;
    }
    RowMeaningCons(cells);
  }

  lemma {:induction false} RowsTurned(sql: string, i: nat)
    requires i <= |sql| && ParseRows(sql, i).Ok?
    ensures var j := After(sql, i, IsBlank());
            && At(sql, i, sql[i..j]) && AllBlank(sql[i..j])
            && j < |sql|
            && (sql[j] == ';' ==> ParseRows(sql, i).value == Parsed([], j + 1))
            && (sql[j] != ';' ==>
                  (sql[j] == '(' && ParseRow(sql, j + 1).Ok?
                  && var row := ParseRow(sql, j + 1).value;
                     && ParseRows(sql, row.next).Ok?
                     && ParseRows(sql, i).value
                     == Parsed([row.value] + ParseRows(sql, row.next).value.value, ParseRows(sql, row.next).value.next)))
  {
    hide ParseRow;
    var j := After(sql, i, IsBlank());
    forall k | 0 <= k < j - i ensures sql[i..j][k] in " \n\r\t," {
      assert IsBlank()(sql[i + k]);
      BlankIs(sql[i + k]);
    }
  }

  /** A gap, a row and what was printed after it make one printed line more. */
  lemma {:induction false} LineJoin(sql: string, i: nat, j: nat, cells: seq<Cell>, next: nat, more: string, rest: string)
    requires i <= j < |sql| && sql[j] == '(' && next <= |sql| && At(sql, i, sql[i..j]) && cells != []
    requires Here(sql, j + 1, PrintCells(cells), sql[next..]) && Here(sql, next, more, rest)
    ensures Here(sql, i, sql[i..j] + ("(" + (PrintCells(cells) + more)), rest)
  {
    hide PrintCells, Here, At;
    OneChar(sql, j, '(');
    Followed(sql, j + 1, PrintCells(cells), next);
    HereJoin(sql, j + 1, PrintCells(cells), more, rest);
    HereJoin(sql, j, "(", PrintCells(cells) + more, rest);
    HereJoin(sql, i, sql[i..j], "(" + (PrintCells(cells) + more), rest);
  }

  lemma {:induction false} RowsWerePrinted(sql: string, i: nat) returns (lines: seq<Line>, last: string)
    requires i <= |sql| && ParseRows(sql, i).Ok?
    ensures LinesOk(lines) && AllBlank(last) && Rows(lines) == ParseRows(sql, i).value.value
    ensures Here(sql, i, PrintLines(lines, last), sql[ParseRows(sql, i).value.next..])
    decreases |sql| - i
  {
    hide ParseRow, ParseRows, TokenOk, PrintCells, After, Rows, RowMeaning, Here, At, Blank;
    RowsTurned(sql, i);
    var p := ParseRows(sql, i).value;
    var j := After(sql, i, IsBlank());
    var gap := sql[i..j];
    if sql[j] == ';' {
      lines, last := [], gap;
      RowsNil();
      OneChar(sql, j, ';');
      HereJoin(sql, i, gap, ";", sql[j + 1..]);
    } else {
      var row := ParseRow(sql, j + 1).value;
      var cells := RowWasPrinted(sql, j + 1);
      var more, end := RowsWerePrinted(sql, row.next);
      lines, last := [Line(gap, cells)] + more, end;
      assert lines[1..] == more;
      LineJoin(sql, i, j, cells, row.next, PrintLines(more, last), sql[p.next..]);
      RowsCons(lines);
    }
  }

  /** The text is a way to write the rows, up to and with the semicolon. */
  ghost predicate Writes(text: string, rows: seq<seq<Value>>) {
    exists lines, last ::
      LinesOk(lines) && AllBlank(last) && PrintLines(lines, last) == text && Rows(lines) == rows
  }

  lemma {:induction false} Between(sql: string, i: nat, word: string, next: nat)
    requires i <= next <= |sql| && i + |word| == next
    ensures At(sql, i, word) ==> sql[i..next] == word
    ensures sql[i..next] == word ==> Here(sql, i, word, sql[next..])
  {
    assert sql[i..] == sql[i..next] + sql[next..];
  }

  /** The reader accepts exactly the ways to write rows, and reads exactly the rows written. */
  lemma {:induction false} ReadsWhatWasWritten(sql: string, i: nat, rows: seq<seq<Value>>, next: nat)
    requires i <= next <= |sql|
    ensures ParseRows(sql, i) == Ok(Parsed(rows, next)) <==> Writes(sql[i..next], rows)
  {
    hide ParseRows, PrintLines, Rows, LinesOk, AllBlank, Here, At;
    if ParseRows(sql, i) == Ok(Parsed(rows, next)) {
      var lines, last := RowsWerePrinted(sql, i);
      Followed(sql, i, PrintLines(lines, last), next);
      Between(sql, i, PrintLines(lines, last), next);
    }
    if Writes(sql[i..next], rows) {
      var lines, last :|
        LinesOk(lines) && AllBlank(last) && PrintLines(lines, last) == sql[i..next] && Rows(lines) == rows;
      Between(sql, i, sql[i..next], next);
      RowsRoundTrip(sql, i, lines, last, sql[next..]);
    }
  }

  // ---- as mysqldump writes ----

  /** The usual escapes, those of the "String Literals" section of the MySQL Reference Manual that are not optional. */
  function Quote(text: string): (gs: seq<Glyph>)
    ensures |gs| == |text|
    ensures forall k :: 0 <= k < |gs| ==> GlyphOk(gs[k]) && GlyphChar(gs[k]) == text[k]
  {
    if text == "" then []
    else
      var c := text[0];
      [if c == '\\' || c == '\'' || c == '"' then Escaped(c)
       else if c == '\n' then Escaped('n')
       else if c == '\r' then Escaped('r')
       else if c == '\0' then Escaped('0')
       else if c == '\U{1a}' then Escaped('Z')
       else Plain(c)] + Quote(text[1..])
  }

  lemma {:induction false} QuoteMeans(text: string)
    ensures GlyphsChars(Quote(text)) == text
  {
    if text != "" {
      QuoteMeans(text[1..]);
    }
  }

  ghost predicate ValueOk(v: Value) {
    match v
    case Null => true
    case Text(_) => true
    case Number(text) => IsNumeral(text)
    case Hex(digits) => TokenOk(HexToken(digits))
  }

  function Written(v: Value): Token {
    match v
    case Null => NullToken
    case Text(text) => TextToken(false, Quote(text))
    case Number(text) => NumberToken(text)
    case Hex(digits) => HexToken(digits)
  }

  /** The rows as one extended INSERT: (a,b),(c,d); */
  function Dumped(rows: seq<seq<Value>>): seq<Line> {
    seq(|rows|, k requires 0 <= k < |rows| =>
      Line(if k == 0 then "" else ",", seq(|rows[k]|, l requires 0 <= l < |rows[k]| => Cell(0, Written(rows[k][l]), 0))))
  }

  /** Whatever rows are dumped, any text in them included, exactly those rows are read back. */
  lemma {:induction false} DumpedIsReadBack(rows: seq<seq<Value>>)
    requires forall k :: 0 <= k < |rows| ==> rows[k] != [] && forall l :: 0 <= l < |rows[k]| ==> ValueOk(rows[k][l])
    ensures LinesOk(Dumped(rows))
    ensures ParseRows(PrintLines(Dumped(rows), ""), 0) == Ok(Parsed(rows, |PrintLines(Dumped(rows), "")|))
  {
    hide PrintLines, ParseRows;
    var lines := Dumped(rows);
    forall k | 0 <= k < |rows| ensures LineOk(lines[k]) && RowMeaning(lines[k].cells) == rows[k] {
      forall l | 0 <= l < |rows[k]| ensures TokenOk(lines[k].cells[l].token) && Meaning(lines[k].cells[l].token) == rows[k][l] {
        if rows[k][l].Text? {
          QuoteMeans(rows[k][l].text);
        }
      }
    }
    assert Rows(lines) == rows;
    RowsRoundTrip(PrintLines(lines, ""), 0, lines, "", "");
  }
}
