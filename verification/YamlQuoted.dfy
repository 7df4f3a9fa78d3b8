/**
 * Double-quoted scalars: the text the emitter writes for a value and the machine the scanner reads
 * it with, as functions.
 */
module YamlQuoted {
  import opened YamlChars

  // ----- what the emitter writes -----

  datatype LineBreak = AnyBreak | CrBreak | LnBreak | CrlnBreak

  /** Settings of the emitter while it writes a scalar; indent is the current one. */
  datatype Style = Style(unicode: bool, width: int, indent: int, lineBreak: LineBreak, allowBreaks: bool)

  /** The indent inside a node; it is negative at the root, and best is from 2 to 9. */
  function IncreaseIndent(indent: int, best: int, flow: bool, indentless: bool): int {
    if indent < 0 then (if flow then best else 0) else if !indentless then indent + best else indent
  }

  /** As it is for every scalar of a started stream. */
  predicate Usable(s: Style) {
    s.indent > 0 && s.lineBreak != AnyBreak
  }

  function Margin(s: Style): nat {
    if s.indent >= 0 then s.indent else 0
  }

  function BreakText(b: LineBreak): seq<nat> {
    match b
    case AnyBreak => []
    case CrBreak => [CR]
    case LnBreak => [LF]
    case CrlnBreak => [CR, LF]
  }

  function Spaces(n: nat): seq<nat> {
    seq(n, _ => SPACE)
  }

  predicate NeedsEscape(s: Style, c: nat) {
    !IsPrintable(c) || (!s.unicode && c > 0x7F) || c == BOM || IsBreak(c) || c == QUOTE || c == BACKSLASH
  }

  /** The letter of a short escape, 0 if there is none. */
  function Letter(c: nat): nat {
    match c
    case 0x00 => 0x30
    case 0x07 => 0x61
    case 0x08 => 0x62
    case 0x09 => 0x74
    case 0x0A => 0x6E
    case 0x0B => 0x76
    case 0x0C => 0x66
    case 0x0D => 0x72
    case 0x1B => 0x65
    case 0x22 => 0x22
    case 0x5C => 0x5C
    case 0x85 => 0x4E
    case 0xA0 => 0x5F
    case 0x2028 => 0x4C
    case 0x2029 => 0x50
    case _ => 0
  }

  /** The last n hexadecimal digits of c. */
  function Digits(c: nat, n: nat): seq<nat>
    decreases n
  {
    if n == 0 then [] else Digits(c / 16, n - 1) + [HexDigit(c % 16)]
  }

  function Escape(c: nat): seq<nat> {
    if Letter(c) != 0 then [BACKSLASH, Letter(c)]
    else if c <= 0xFF then [BACKSLASH, 0x78] + Digits(c, 2)
    else if c <= 0xFFFF then [BACKSLASH, 0x75] + Digits(c, 4)
    else [BACKSLASH, 0x55] + Digits(c, 8)
  }

  /** The space at index i is written as a folded line break. */
  predicate Folds(s: Style, v: seq<nat>, i: nat, col: int, spaces: bool)
    requires i < |v|
  {
    v[i] == SPACE && s.allowBreaks && !spaces && col > s.width && i != 0 && i != |v| - 1
  }

  /** What is written for the character at index i. */
  function Piece(s: Style, v: seq<nat>, i: nat, col: int, spaces: bool): seq<nat>
    requires i < |v|
  {
    if NeedsEscape(s, v[i]) then Escape(v[i])
    else if Folds(s, v, i, col, spaces) then
      BreakText(s.lineBreak) + Spaces(Margin(s)) + (if v[i + 1] == SPACE then [BACKSLASH] else [])
    else [v[i]]
  }

  /** The column after it. */
  function Column(s: Style, v: seq<nat>, i: nat, col: int, spaces: bool): int
    requires i < |v|
  {
    if NeedsEscape(s, v[i]) then col + |Escape(v[i])|
    else if Folds(s, v, i, col, spaces) then Margin(s) + (if v[i + 1] == SPACE then 1 else 0)
    else col + 1
  }

  /** The text for v[i..], written from column col on. */
  function Body(s: Style, v: seq<nat>, i: nat, col: int, spaces: bool): seq<nat>
    requires i <= |v|
    decreases |v| - i
  {
    if i == |v| then []
    else Piece(s, v, i, col, spaces) + Body(s, v, i + 1, Column(s, v, i, col, spaces), v[i] == SPACE)
  }

  // ----- how the scanner reads -----

  datatype Problem = DocumentIndicator | EndOfStream | UnknownEscape | BadHex | BadCode

  /** A scalar and the position after its right quote, or the scanner's error. */
  datatype Scanned = Scalar(value: seq<nat>, end: nat) | Failed(problem: Problem)

  /** The character of a short escape; the numeric ones are longer. */
  datatype Escaped = Single(c: nat) | Numeric(digits: nat) | Unknown

  function Unescape(letter: nat): Escaped {
    match letter
    case 0x30 => Single(0x00)
    case 0x61 => Single(0x07)
    case 0x62 => Single(0x08)
    case 0x74 => Single(0x09)
    case 0x09 => Single(0x09)
    case 0x6E => Single(0x0A)
    case 0x76 => Single(0x0B)
    case 0x66 => Single(0x0C)
    case 0x72 => Single(0x0D)
    case 0x65 => Single(0x1B)
    case 0x20 => Single(0x20)
    case 0x22 => Single(0x22)
    case 0x27 => Single(0x27)
    case 0x5C => Single(0x5C)
    case 0x4E => Single(0x85)
    case 0x5F => Single(0xA0)
    case 0x4C => Single(0x2028)
    case 0x50 => Single(0x2029)
    case 0x78 => Numeric(2)
    case 0x75 => Numeric(4)
    case 0x55 => Numeric(8)
    case _ => Unknown
  }

  predicate AllHex(t: seq<nat>, p: nat, n: nat) {
    n == 0 || (AllHex(t, p, n - 1) && IsHex(At(t, p + n - 1)))
  }

  function HexValue(t: seq<nat>, p: nat, n: nat): nat
    requires AllHex(t, p, n)
  {
    if n == 0 then 0 else HexValue(t, p, n - 1) * 16 + AsHex(At(t, p + n - 1))
  }

  predicate Indicator(t: seq<nat>, p: nat) {
    && ((At(t, p) == 0x2D && At(t, p + 1) == 0x2D && At(t, p + 2) == 0x2D)
        || (At(t, p) == 0x2E && At(t, p + 1) == 0x2E && At(t, p + 2) == 0x2E))
    && IsBlankz(At(t, p + 3))
  }

  /** How many characters the line break at p has. */
  function BreakLength(t: seq<nat>, p: nat): nat {
    if At(t, p) == CR && At(t, p + 1) == LF then 2 else 1
  }

  /** The line break read at p: CR LF, CR, LF and NEL become LF. */
  function BreakRead(t: seq<nat>, p: nat): nat {
    if At(t, p) == LS || At(t, p) == PS then At(t, p) else LF
  }

  /** Blanks between the lines and words of a scalar. */
  datatype Blanks = Blanks(leading: bool, whitespaces: seq<nat>, leadingBreak: seq<nat>, trailing: seq<nat>)

  const None := Blanks(false, [], [], [])
  const AfterEscapedBreak := Blanks(true, [], [], [])

  /** What they stand for. */
  function Join(b: Blanks): seq<nat> {
    if !b.leading then b.whitespaces
    else if b.leadingBreak != [] && b.leadingBreak[0] == LF then (if b.trailing == [] then [SPACE] else b.trailing)
    else b.leadingBreak + b.trailing
  }

  function AddBlank(b: Blanks, c: nat): Blanks {
    if b.leading then b else b.(whitespaces := b.whitespaces + [c])
  }

  function AddBreak(b: Blanks, c: nat): Blanks {
    if b.leading then b.(trailing := b.trailing + [c]) else Blanks(true, [], b.leadingBreak + [c], b.trailing)
  }

  function Room(t: seq<nat>, p: nat): nat {
    if p < |t| then |t| - p else 0
  }

  /** At the top of the outer loop, at position p in column col. */
  function Outer(t: seq<nat>, p: nat, col: nat, out: seq<nat>): Scanned
    decreases Room(t, p), 2
  {
    if col == 0 && Indicator(t, p) then Failed(DocumentIndicator)
    else if At(t, p) == 0 then Failed(EndOfStream)
    else Inner(t, p, col, out)
  }

  /** In the loop over non-blank characters. */
  function Inner(t: seq<nat>, p: nat, col: nat, out: seq<nat>): Scanned
    decreases Room(t, p), if At(t, p) == 0 then 4 else 1
  {
    var c := At(t, p);
    if IsBlankz(c) then Between(t, p, col, out, None)
    else if c == QUOTE then Scalar(out, p + 1)
    else if c == BACKSLASH && IsBreak(At(t, p + 1)) then
      Between(t, p + 1 + BreakLength(t, p + 1), 0, out, AfterEscapedBreak)
    else if c == BACKSLASH then
      match Unescape(At(t, p + 1))
      case Single(x) => Inner(t, p + 2, col + 2, out + [x])
      case Numeric(n) =>
        if !AllHex(t, p + 2, n) then Failed(BadHex)
        else
          var x := HexValue(t, p + 2, n);
          if !IsScalar(x) then Failed(BadCode) else Inner(t, p + 2 + n, col + 2 + n, out + [x])
      case Unknown => Failed(UnknownEscape)
    else Inner(t, p + 1, col + 1, out + [c])
  }

  /** In the loop over blanks and line breaks. */
  function Between(t: seq<nat>, p: nat, col: nat, out: seq<nat>, b: Blanks): Scanned
    decreases Room(t, p), if IsBlank(At(t, p)) || IsBreak(At(t, p)) then 0 else 3
  {
    var c := At(t, p);
    if IsBlank(c) then Between(t, p + 1, col + 1, out, AddBlank(b, c))
    else if IsBreak(c) then Between(t, p + BreakLength(t, p), 0, out, AddBreak(b, BreakRead(t, p)))
    else Outer(t, p, col, out + Join(b))
  }

  /** The scalar whose left quote is at p. */
  function Scan(t: seq<nat>, p: nat, col: nat): Scanned {
    Outer(t, p + 1, col + 1, [])
  }
}
