// Every way a list of rows may be written in an INSERT.
module DumpPrinter {
  import opened Wrappers
  import opened DumpValues

  /** A number as the "Numeric Literals" section of the MySQL Reference Manual has it: a minus or none, digits, a point
      with more digits or none, and a power of ten or none. */
  datatype Numeral = Numeral(minus: bool, whole: string, point: Option<string>, power: Option<Power>)

  datatype Power = Power(letter: char, sign: Option<char>, digits: string)

  predicate Digits(s: string) {
    s != "" && forall k :: 0 <= k < |s| ==> s[k] in "0123456789"
  }

  predicate NumeralOk(n: Numeral) {
    && Digits(n.whole)
    && (n.point.Some? ==> Digits(n.point.value))
    && (n.power.Some? ==>
          && n.power.value.letter in "eE" && Digits(n.power.value.digits)
          && (n.power.value.sign.Some? ==> n.power.value.sign.value in "+-"))
  }

  function PointText(point: Option<string>): string {
    match point case None => "" case Some(digits) => "." + digits
  }

  function PowerText(power: Option<Power>): string {
    match power
    case None => ""
    case Some(p) => [p.letter] + ((match p.sign case None => "" case Some(c) => [c]) + p.digits)
  }

  function NumeralText(n: Numeral): string {
    (if n.minus then "-" else "") + (n.whole + (PointText(n.point) + PowerText(n.power)))
  }

  ghost predicate IsNumeral(text: string) {
    exists n :: NumeralOk(n) && NumeralText(n) == text
  }

  /** What a letter means after a backslash, by the "String Literals" section of the MySQL Reference Manual; any other
      stands for itself. */
  const ESCAPES: map<char, char> := map[
    '0' := '\0', '\'' := '\'', '"' := '"', 'b' := '\U{8}', 'n' := '\U{a}', 'r' := '\U{d}', 't' := '\U{9}',
    'Z' := '\U{1a}', '\\' := '\\']

  function Escape(code: char): char { if code in ESCAPES then ESCAPES[code] else code }

  /** One character of a literal: as it is, after a backslash, or as a doubled quote. */
  datatype Glyph = Plain(c: char) | Escaped(code: char) | Doubled

  datatype Token = NullToken | NumberToken(text: string) | TextToken(binary: bool, glyphs: seq<Glyph>) | HexToken(digits: string)

  /** A value with the spaces around it. */
  datatype Cell = Cell(before: nat, token: Token, after: nat)

  /** A row with the blanks and commas before it. */
  datatype Line = Line(gap: string, cells: seq<Cell>)

  predicate GlyphOk(g: Glyph) {
    g.Plain? ==> g.c != '\\' && g.c != '\''
  }

  ghost predicate TokenOk(t: Token) {
    match t
    case NullToken => true
    case NumberToken(text) => IsNumeral(text)
    case TextToken(_, glyphs) => forall k :: 0 <= k < |glyphs| ==> GlyphOk(glyphs[k])
    case HexToken(digits) => forall k :: 0 <= k < |digits| ==> digits[k] in "0123456789abcdefABCDEF"
  }

  predicate AllBlank(s: string) {
    forall k :: 0 <= k < |s| ==> s[k] in " \n\r\t,"
  }

  ghost predicate LineOk(l: Line) {
    && AllBlank(l.gap)
    && l.cells != []
    && (forall k :: 0 <= k < |l.cells| ==> TokenOk(l.cells[k].token))
  }

  ghost predicate LinesOk(lines: seq<Line>) {
    forall k :: 0 <= k < |lines| ==> LineOk(lines[k])
  }

  function GlyphText(g: Glyph): string {
    match g case Plain(c) => [c] case Escaped(code) => ['\\', code] case Doubled => ['\'', '\'']
  }

  function GlyphChar(g: Glyph): char {
    match g case Plain(c) => c case Escaped(code) => Escape(code) case Doubled => '\''
  }

  function GlyphsText(gs: seq<Glyph>): string {
    if gs == [] then "" else GlyphText(gs[0]) + GlyphsText(gs[1..])
  }

  function GlyphsChars(gs: seq<Glyph>): string {
    if gs == [] then "" else [GlyphChar(gs[0])] + GlyphsChars(gs[1..])
  }

  function PrintToken(t: Token): string {
    match t
    case NullToken => "NULL"
    case NumberToken(text) => text
    case TextToken(binary, glyphs) => (if binary then "_binary '" else "'") + (GlyphsText(glyphs) + "'")
    case HexToken(digits) => "0x" + digits
  }

  function Meaning(t: Token): Value {
    match t
    case NullToken => Null
    case NumberToken(text) => Number(text)
    case TextToken(_, glyphs) => Text(GlyphsChars(glyphs))
    case HexToken(digits) => Hex(digits)
  }

  function Spaces(n: nat): (r: string)
    ensures |r| == n && forall k :: 0 <= k < n ==> r[k] == ' '
  {
    seq(n, _ => ' ')
  }

  function PrintCell(c: Cell): string { Spaces(c.before) + (PrintToken(c.token) + Spaces(c.after)) }

  /** The cells, separated by commas, and the closing parenthesis. */
  function PrintCells(cells: seq<Cell>): string
    requires cells != []
  {
    if |cells| == 1 then PrintCell(cells[0]) + ")" else PrintCell(cells[0]) + ("," + PrintCells(cells[1..]))
  }

  function PrintLines(lines: seq<Line>, last: string): string
    requires LinesOk(lines)
  {
    if lines == [] then last + ";"
    else lines[0].gap + ("(" + (PrintCells(lines[0].cells) + PrintLines(lines[1..], last)))
  }

  function RowMeaning(cells: seq<Cell>): seq<Value> {
    seq(|cells|, k requires 0 <= k < |cells| => Meaning(cells[k].token))
  }

  function Rows(lines: seq<Line>): seq<seq<Value>> {
    seq(|lines|, k requires 0 <= k < |lines| => RowMeaning(lines[k].cells))
  }
}
