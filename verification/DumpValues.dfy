// Reading the VALUES list of a mysqldump INSERT back into rows.
module DumpValues {
  import opened Wrappers
  import opened Basics

  datatype Value = Null | Number(text: string) | Text(text: string) | Hex(digits: string)

  datatype Error = UnexpectedInInsert | CannotParse | UnexpectedAfterValue | Truncated

  // ---- characters ----

  /** What a backslash escape stands for; an unknown one stands for its own letter. */
  function Unescape(c: char): char {
    match c
    case '0' => '\0'
    case 'b' => '\U{8}'
    case 'n' => '\n'
    case 'r' => '\r'
    case 't' => '\t'
    case 'Z' => '\U{1a}'
    case _ => c
  }

  predicate HexDigit(c: char) { Digit(c) || 'a' <= c <= 'f' || 'A' <= c <= 'F' }

  predicate Blank(c: char) { c == ' ' || c == '\n' || c == '\r' || c == '\t' || c == ',' }

  predicate At(sql: string, i: nat, word: string) {
    i + |word| <= |sql| && sql[i..i + |word|] == word
  }

  /** The first position from i on that is not p, at most the end. */
  function After(sql: string, i: nat, p: char -> bool): (j: nat)
    requires i <= |sql|
    ensures i <= j <= |sql|
    ensures forall k :: i <= k < j ==> p(sql[k])
    ensures j < |sql| ==> !p(sql[j])
    decreases |sql| - i
  {
    if i < |sql| && p(sql[i]) then After(sql, i + 1, p) else i
  }

  function IsSpace(): char -> bool { (c: char) => c == ' ' }

  function IsBlank(): char -> bool { (c: char) => Blank(c) }

  function IsDigit(): char -> bool { (c: char) => Digit(c) }

  function IsHexDigit(): char -> bool { (c: char) => HexDigit(c) }

  /** The end of a fraction: a point and at least one digit. */
  function FractionEnd(sql: string, k: nat): (f: nat)
    requires k <= |sql|
    ensures k <= f <= |sql|
  {
    if k < |sql| && sql[k] == '.' && After(sql, k + 1, IsDigit()) > k + 1 then After(sql, k + 1, IsDigit()) else k
  }

  function ExponentSign(sql: string, f: nat): nat {
    if f < |sql| && (sql[f] == '-' || sql[f] == '+') then f + 1 else f
  }

  /** The end of an exponent: its letter, a sign or none, and at least one digit. */
  function ExponentEnd(sql: string, f: nat): (e: nat)
    requires f <= |sql|
    ensures f <= e <= |sql|
  {
    if f < |sql| && (sql[f] == 'e' || sql[f] == 'E') then
      var g := ExponentSign(sql, f + 1);
      if After(sql, g, IsDigit()) > g then After(sql, g, IsDigit()) else f
    else f
  }

  /** Where the longest number from i on ends. */
  function MatchNumber(sql: string, i: nat): (r: Option<nat>)
    requires i <= |sql|
    ensures r.Some? ==> i < r.value <= |sql|
  {
    var j := if i < |sql| && sql[i] == '-' then i + 1 else i;
    var k := After(sql, j, IsDigit());
    if k == j then None else Some(ExponentEnd(sql, FractionEnd(sql, k)))
  }

  // ---- the parser, as a function of the position ----

  /** A value or a list of rows, and the position after it. */
  datatype Parsed<T> = Parsed(value: T, next: nat)

  /** What was read after done, put behind it. */
  function Extend<T>(done: seq<T>, r: Result<Parsed<seq<T>>, Error>): (out: Result<Parsed<seq<T>>, Error>)
    ensures out.Ok? <==> r.Ok?
    ensures r.Ok? ==> out.value.next == r.value.next
  {
    match r case Err(e) => Err(e) case Ok(p) => Ok(Parsed(done + p.value, p.next))
  }

  /** The rest of a string literal, from after its opening quote or a later character of it. */
  function ParseText(sql: string, i: nat): (r: Result<Parsed<string>, Error>)
    ensures r.Ok? ==> i < r.value.next <= |sql|
    decreases |sql| - i
  {
    if i >= |sql| then Err(Truncated)
    else if sql[i] == '\\' then
      if i + 1 >= |sql| then Err(Truncated) else Extend([Unescape(sql[i + 1])], ParseText(sql, i + 2))
    else if sql[i] == '\'' then
      if i + 1 < |sql| && sql[i + 1] == '\'' then Extend("'", ParseText(sql, i + 2)) else Ok(Parsed("", i + 1))
    else Extend([sql[i]], ParseText(sql, i + 1))
  }

  function ParseValue(sql: string, i: nat): (r: Result<Parsed<Value>, Error>)
    ensures r.Ok? ==> i < r.value.next <= |sql|
  {
    if i >= |sql| then Err(Truncated)
    else if sql[i] == '\'' || At(sql, i, "_binary '") then
      match ParseText(sql, if sql[i] == '\'' then i + 1 else i + 9)
      case Err(e) => Err(e)
      case Ok(p) => Ok(Parsed(Text(p.value), p.next))
    else if At(sql, i, "NULL") then Ok(Parsed(Null, i + 4))
    else if At(sql, i, "0x") then
      var j := After(sql, i + 2, IsHexDigit());
      Ok(Parsed(Hex(sql[i + 2..j]), j))
    else
      match MatchNumber(sql, i)
      case None => Err(CannotParse)
      case Some(j) => Ok(Parsed(Number(sql[i..j]), j))
  }

  /** The values from i on and the position after the closing parenthesis. */
  function ParseRow(sql: string, i: nat): (r: Result<Parsed<seq<Value>>, Error>)
    requires i <= |sql|
    ensures r.Ok? ==> i < r.value.next <= |sql|
    decreases |sql| - i
  {
    match ParseValue(sql, After(sql, i, IsSpace()))
    case Err(e) => Err(e)
    case Ok(p) =>
      var j := After(sql, p.next, IsSpace());
      if j >= |sql| then Err(Truncated)
      else if sql[j] == ',' then
        Extend([p.value], ParseRow(sql, j + 1))
      else if sql[j] == ')' then Ok(Parsed([p.value], j + 1))
      else Err(UnexpectedAfterValue)
  }

  /** The rows from i on and the position after the semicolon. */
  function ParseRows(sql: string, i: nat): (r: Result<Parsed<seq<seq<Value>>>, Error>)
    requires i <= |sql|
    ensures r.Ok? ==> i < r.value.next <= |sql|
    decreases |sql| - i
  {
    var j := After(sql, i, IsBlank());
    if j >= |sql| then Err(Truncated)
    else if sql[j] == ';' then Ok(Parsed([], j + 1))
    else if sql[j] != '(' then Err(UnexpectedInInsert)
    else
      match ParseRow(sql, j + 1)
      case Err(e) => Err(e)
      case Ok(row) =>
        Extend([row.value], ParseRows(sql, row.next))
  }

  // ---- the loops ----

  lemma {:induction false} ExtendNone<T>(r: Result<Parsed<seq<T>>, Error>)
    ensures Extend([], r) == r
  {
    if r.Ok? {
      assert [] + r.value.value == r.value.value;
    }
  }

  lemma {:induction false} ExtendOne<T>(done: seq<T>, x: T, r: Result<Parsed<seq<T>>, Error>)
    ensures Extend(done + [x], r) == Extend(done, Extend([x], r))
  {
    if r.Ok? {
      assert (done + [x]) + r.value.value == done + ([x] + r.value.value);
    }
  }

  method Skip(sql: string, start: nat, p: char -> bool) returns (i: nat)
    requires start <= |sql|
    ensures i == After(sql, start, p)
  {
    i := start;
    while i < |sql| && p(sql[i])
      invariant start <= i <= |sql|
      invariant After(sql, start, p) == After(sql, i, p)
    {
      i := i + 1;
    }
  }

  /** The loop over the characters of a literal, filling buf. */
  method ReadText(sql: string, start: nat) returns (r: Result<Parsed<string>, Error>)
    ensures r == ParseText(sql, start)
  {
    var i, buf := start, "";
    ExtendNone(ParseText(sql, start));
    while true
      invariant ParseText(sql, start) == Extend(buf, ParseText(sql, i))
      decreases |sql| - i
    {
      if i >= |sql| {
        return Err(Truncated);
      }
      var c := sql[i];
      if c == '\\' {
        if i + 1 >= |sql| {
          return Err(Truncated);
        }
        ExtendOne(buf, Unescape(sql[i + 1]), ParseText(sql, i + 2));
        i, buf := i + 2, buf + [Unescape(sql[i + 1])];
      } else if c == '\'' {
        if i + 1 < |sql| && sql[i + 1] == '\'' {
          ExtendOne(buf, c, ParseText(sql, i + 2));
          i, buf := i + 2, buf + [c];
        } else {
          assert buf + [] == buf;
          return Ok(Parsed(buf, i + 1));
        }
      } else {
        ExtendOne(buf, c, ParseText(sql, i + 1));
        i, buf := i + 1, buf + [c];
      }
    }
  }

  method ReadValue(sql: string, start: nat) returns (r: Result<Parsed<Value>, Error>)
    ensures r == ParseValue(sql, start)
  {
    var i := start;
    if i >= |sql| {
      return Err(Truncated);
    }
    if sql[i] == '\'' || At(sql, i, "_binary '") {
      if sql[i] != '\'' {
        i := i + |"_binary "|;
      }
      i := i + 1;
      var text := ReadText(sql, i);
      return match text case Err(e) => Err(e) case Ok(p) => Ok(Parsed(Text(p.value), p.next));
    }
    if At(sql, i, "NULL") {
      return Ok(Parsed(Null, i + 4));
    }
    if At(sql, i, "0x") {
      var j := Skip(sql, i + 2, IsHexDigit());
      return Ok(Parsed(Hex(sql[i + 2..j]), j));
    }
    var m := MatchNumber(sql, i);
    return match m case None => Err(CannotParse) case Some(j) => Ok(Parsed(Number(sql[i..j]), j));
  }

  /** One turn of that loop. */
  lemma {:induction false} RowCases(sql: string, i: nat)
    requires i <= |sql|
    ensures var v := ParseValue(sql, After(sql, i, IsSpace()));
            var j := if v.Ok? then After(sql, v.value.next, IsSpace()) else 0;
            && (v.Err? ==> ParseRow(sql, i) == Err(v.error))
            && (v.Ok? && j >= |sql| ==> ParseRow(sql, i) == Err(Truncated))
            && (v.Ok? && j < |sql| && sql[j] == ',' ==> ParseRow(sql, i) == Extend([v.value.value], ParseRow(sql, j + 1)))
            && (v.Ok? && j < |sql| && sql[j] == ')' ==> ParseRow(sql, i) == Ok(Parsed([v.value.value], j + 1)))
            && (v.Ok? && j < |sql| && sql[j] != ',' && sql[j] != ')' ==> ParseRow(sql, i) == Err(UnexpectedAfterValue))
  {
    hide ParseValue, After, At;
  }

  /** The loop over the values of a row, filling row. */
  method ReadRow(sql: string, start: nat) returns (r: Result<Parsed<seq<Value>>, Error>)
    requires start <= |sql|
    ensures r == ParseRow(sql, start)
  {
    hide ParseValue, After, At, ParseRow;
    var i, row := start, [];
    ExtendNone(ParseRow(sql, start));
    while true
      invariant i <= |sql|
      invariant ParseRow(sql, start) == Extend(row, ParseRow(sql, i))
      decreases |sql| - i
    {
      RowCases(sql, i);
      i := Skip(sql, i, IsSpace());
      var v := ReadValue(sql, i);
      if v.Err? {
        return Err(v.error);
      }
      i := Skip(sql, v.value.next, IsSpace());
      if i >= |sql| {
        return Err(Truncated);
      }
      if sql[i] == ',' {
        i := i + 1;
        ExtendOne(row, v.value.value, ParseRow(sql, i));
        row := row + [v.value.value];
      } else if sql[i] == ')' {
        return Ok(Parsed(row + [v.value.value], i + 1));
      } else {
        return Err(UnexpectedAfterValue);
      }
    }
  }

  /** The loop over the rows, up to the semicolon. */
  method ReadRows(sql: string, start: nat) returns (r: Result<Parsed<seq<seq<Value>>>, Error>)
    requires start <= |sql|
    ensures r == ParseRows(sql, start)
  {
    hide ParseRow, After;
    var i, rows := start, [];
    ExtendNone(ParseRows(sql, start));
    while true
      invariant i <= |sql|
      invariant ParseRows(sql, start) == Extend(rows, ParseRows(sql, i))
      decreases |sql| - i
    {
      var from := i;
      i := Skip(sql, i, IsBlank());
      if i >= |sql| {
        return Err(Truncated);
      }
      if sql[i] == ';' {
        assert rows + [] == rows;
        return Ok(Parsed(rows, i + 1));
      }
      if sql[i] != '(' {
        return Err(UnexpectedInInsert);
      }
      var row := ReadRow(sql, i + 1);
      if row.Err? {
        return Err(row.error);
      }
      i := row.value.next;
      assert ParseRows(sql, from) == Extend([row.value.value], ParseRows(sql, i));
      ExtendOne(rows, row.value.value, ParseRows(sql, i));
      rows := rows + [row.value.value];
    }
  }
}
