/** The part of the emitter that writes double-quoted scalars (emitter.c). */
module YamlEmitter {
  import opened YamlChars
  import opened YamlQuoted
  import opened YamlRoundTrip

  /** c shifted right by n hexadecimal digits. */
  function Shifted(c: nat, n: nat): nat {
    if n == 0 then c else Shifted(c, n - 1) / 16
  }

  const INT_MAX := 0x7FFF_FFFF

  class Emitter {
    var buffer: seq<nat>
    var column: int
    var whitespace: bool
    var indention: bool
    var indent: int
    var indents: seq<int>
    var simpleKeyContext: bool
    var bestIndent: int
    var bestWidth: int
    var lineBreak: LineBreak
    const unicode: bool

    /** The settings as the caller chose them. */
    constructor (bestIndent: int, bestWidth: int, unicode: bool, lineBreak: LineBreak)
      ensures this.bestIndent == bestIndent && this.bestWidth == bestWidth && this.unicode == unicode
      ensures this.lineBreak == lineBreak && buffer == [] && indents == []
    {
      this.bestIndent, this.bestWidth, this.unicode, this.lineBreak := bestIndent, bestWidth, unicode, lineBreak;
      buffer, column, whitespace, indention, indent, indents, simpleKeyContext := [], 0, false, false, 0, [], false;
    }

    /** The settings after the start of the stream. */
    predicate Started()
      reads this`bestIndent, this`lineBreak
    {
      2 <= bestIndent <= 9 && lineBreak != AnyBreak
    }

    /** Brings the settings into range. */
    method EmitStreamStart()
      modifies this
      ensures Started() && bestWidth > bestIndent * 2 && indent == -1 && indents == old(indents)
      ensures column == 0 && whitespace && indention && buffer == old(buffer)
      ensures 2 <= old(bestIndent) <= 9 ==> bestIndent == old(bestIndent)
      ensures old(bestWidth) > bestIndent * 2 ==> bestWidth == old(bestWidth)
      ensures old(lineBreak) != AnyBreak ==> lineBreak == old(lineBreak)
    {
      if bestIndent < 2 || bestIndent > 9 { bestIndent := 2; }
      if bestWidth >= 0 && bestWidth <= bestIndent * 2 { bestWidth := 80; }
      if bestWidth < 0 { bestWidth := INT_MAX; }
      if lineBreak == AnyBreak { lineBreak := LnBreak; }
      indent, column, whitespace, indention := -1, 0, true, true;
    }

    /** The settings in force, for a scalar that may be broken into lines or not. */
    function Settings(indent: int): Style
      reads this`bestWidth, this`lineBreak, this`simpleKeyContext
    {
      Style(unicode, bestWidth, indent, lineBreak, !simpleKeyContext)
    }

    /** What a scalar is written with: the indent has been increased for it. */
    function ScalarSettings(): (s: Style)
      reads this`bestWidth, this`lineBreak, this`simpleKeyContext, this`indent, this`bestIndent
      ensures Started() ==> Usable(s)
    {
      Settings(IncreaseIndent(indent, bestIndent, true, false))
    }

    method Put(c: nat)
      modifies this`buffer, this`column
      ensures buffer == old(buffer) + [c] && column == old(column) + 1
    {
      buffer := buffer + [c];
      column := column + 1;
    }

    method PutBreak()
      modifies this`buffer, this`column
      ensures buffer == old(buffer) + BreakText(lineBreak) && column == 0
    {
      buffer := buffer + BreakText(lineBreak);
      column := 0;
    }

    /** A line break, unless the line is still empty, and the margin. */
    method WriteIndent()
      modifies this`buffer, this`column, this`whitespace, this`indention
      ensures column == MarginNow() && whitespace && indention
      ensures !Stays(old(indention), old(column), old(whitespace)) ==>
                buffer == old(buffer) + BreakText(lineBreak) + Spaces(MarginNow())
      ensures Stays(old(indention), old(column), old(whitespace)) ==>
                buffer == old(buffer) + Spaces(MarginNow() - old(column))
    {
      var margin: nat := MarginNow();
      if !indention || column > margin || (column == margin && !whitespace) {
        PutBreak();
      }
      ghost var start, from := buffer, column;
      while column < margin
        invariant from <= column <= margin && buffer == start + Spaces(column - from)
      {
        Put(SPACE);
      }
      whitespace := true;
      indention := true;
    }

    function MarginNow(): nat
      reads this`indent
    {
      if indent >= 0 then indent else 0
    }

    /** No break is written: the line holds no more than a part of the margin. */
    predicate Stays(indention: bool, column: int, whitespace: bool)
      reads this`indent
    {
      indention && column <= MarginNow() && (column == MarginNow() ==> whitespace)
    }

    /** A one-character indicator, after a space if one is needed. */
    method WriteIndicator(indicator: nat, needWhitespace: bool, isWhitespace: bool, isIndention: bool)
      modifies this`buffer, this`column, this`whitespace, this`indention
      ensures buffer == old(buffer) + Gap(needWhitespace, old(whitespace)) + [indicator]
      ensures column == old(column) + |Gap(needWhitespace, old(whitespace))| + 1
      ensures whitespace == isWhitespace && indention == (old(indention) && isIndention)
    {
      if needWhitespace && !whitespace { Put(SPACE); }
      Put(indicator);
      whitespace := isWhitespace;
      indention := indention && isIndention;
    }

    static function Gap(needWhitespace: bool, whitespace: bool): seq<nat> {
      if needWhitespace && !whitespace then [SPACE] else []
    }

    method WriteDigits(c: nat, width: nat)
      modifies this`buffer, this`column
      ensures buffer == old(buffer) + Digits(c, width) && column == old(column) + width
    {
      var k := width;
      while k > 0
        invariant 0 <= k <= width
        invariant buffer == old(buffer) + Digits(Shifted(c, k), width - k) && column == old(column) + width - k
      {
        k := k - 1;
        Put(HexDigit(Shifted(c, k) % 16));
      }
    }

    /** The character c as an escape sequence. */
    method WriteEscape(c: nat)
      modifies this`buffer, this`column
      ensures buffer == old(buffer) + Escape(c) && column == old(column) + |Escape(c)|
    {
      hide Letter, Digits;
      Put(BACKSLASH);
      if Letter(c) != 0 {
        Put(Letter(c));
      } else if c <= 0xFF {
        Put(0x78);
        WriteDigits(c, 2);
        DigitsLength(c, 2);
      } else if c <= 0xFFFF {
        Put(0x75);
        WriteDigits(c, 4);
        DigitsLength(c, 4);
      } else {
        Put(0x55);
        WriteDigits(c, 8);
        DigitsLength(c, 8);
      }
    }

    /** Before a character: if the last indent is still all there is on the line, a space led to it. */
    predicate Ready(spaces: bool)
      reads this`indention, this`column, this`indent
    {
      indention ==> if spaces then column >= MarginNow() else column > MarginNow()
    }

    /** The character at index i, as a fold where the conditions are met. */
    method WriteQuotedChar(v: seq<nat>, i: nat, spaces: bool)
      requires i < |v| && Ready(spaces)
      modifies this`buffer, this`column, this`whitespace, this`indention
      ensures Ready(v[i] == SPACE)
      ensures buffer == old(buffer) + Piece(Settings(indent), v, i, old(column), spaces)
      ensures column == Column(Settings(indent), v, i, old(column), spaces)
    {
      hide Letter;
      if !IsPrintable(v[i]) || (!unicode && v[i] > 0x7F) || v[i] == BOM || IsBreak(v[i]) || v[i] == QUOTE
         || v[i] == BACKSLASH {
        WriteEscape(v[i]);
      } else if v[i] == SPACE {
        if !simpleKeyContext && !spaces && column > bestWidth && i != 0 && i != |v| - 1 {
          WriteIndent();
          if v[i + 1] == SPACE {
            Put(BACKSLASH);
          }
        } else {
          Put(SPACE);
        }
      } else {
        Put(v[i]);
      }
    }

    /** Writes v between double quotes: exactly the text of the specification, from the column after
        the left quote on. */
    method WriteDoubleQuotedScalar(v: seq<nat>)
      modifies this`buffer, this`column, this`whitespace, this`indention
      ensures buffer == old(buffer) + Gap(true, old(whitespace)) + [QUOTE]
                        + Body(Settings(indent), v, 0, old(column) + |Gap(true, old(whitespace))| + 1, false) + [QUOTE]
      ensures !whitespace && !indention
    {
      hide Piece, Column;
      WriteIndicator(QUOTE, true, false, false);
      ghost var start, from := buffer, column;
      var spaces, i := false, 0;
      while i < |v|
        invariant 0 <= i <= |v| && Ready(spaces)
        invariant buffer + Body(Settings(indent), v, i, column, spaces) == start + Body(Settings(indent), v, 0, from, false)
      {
        ghost var written, ec, sp := buffer, column, spaces;
        WriteQuotedChar(v, i, spaces);
        spaces := v[i] == SPACE;
        assert buffer + Body(Settings(indent), v, i + 1, column, spaces) == written + Body(Settings(indent), v, i, ec, sp);
        i := i + 1;
      }
      WriteIndicator(QUOTE, false, false, false);
      whitespace := false;
      indention := false;
    }

    method IncreaseIndentBy(flow: bool, indentless: bool)
      modifies this`indent, this`indents
      ensures indents == old(indents) + [old(indent)]
      ensures indent == IncreaseIndent(old(indent), bestIndent, flow, indentless)
    {
      indents := indents + [indent];
      if indent < 0 {
        indent := if flow then bestIndent else 0;
      } else if !indentless {
        indent := indent + bestIndent;
      }
    }

    /** Writes a scalar in double-quoted style, indented by one level more than the node around it. */
    method EmitQuotedScalar(v: seq<nat>)
      modifies this
      ensures bestIndent == old(bestIndent) && lineBreak == old(lineBreak) && indent == old(indent) && indents == old(indents)
      ensures var gap := Gap(true, old(whitespace));
              buffer == old(buffer) + gap + [QUOTE] + Body(old(ScalarSettings()), v, 0, old(column) + |gap| + 1, false) + [QUOTE]
    {
      hide Body, Gap;
      IncreaseIndentBy(true, false);
      WriteDoubleQuotedScalar(v);
      indent, indents := indents[|indents| - 1], indents[..|indents| - 1];
    }
  }
}
