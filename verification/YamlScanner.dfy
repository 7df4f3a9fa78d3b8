/** The part of the scanner that reads double-quoted scalars (scanner.c). */
module YamlScanner {
  import opened YamlChars
  import opened YamlQuoted
  import opened YamlRoundTrip
  import opened YamlEmitter
  import YamlReading

  class Scanner {
    const text: seq<nat>
    var pos: nat
    var column: nat

    constructor (text: seq<nat>, pos: nat, column: nat)
      ensures this.text == text && this.pos == pos && this.column == column
    {
      this.text, this.pos, this.column := text, pos, column;
    }

    method Skip()
      modifies this
      ensures pos == old(pos) + 1 && column == old(column) + 1
    {
      pos, column := pos + 1, column + 1;
    }

    /** Reads a line break. */
    method ReadLine() returns (c: nat)
      modifies this
      ensures pos == old(pos) + BreakLength(text, old(pos)) && column == 0 && c == BreakRead(text, old(pos))
    {
      c := if At(text, pos) == LS || At(text, pos) == PS then At(text, pos) else LF;
      pos := if At(text, pos) == CR && At(text, pos + 1) == LF then pos + 2 else pos + 1;
      column := 0;
    }

    /** Reads the digits of a numeric escape. */
    method ReadHex(n: nat) returns (ok: bool, value: nat)
      ensures ok == AllHex(text, pos, n) && (ok ==> value == HexValue(text, pos, n))
    {
      var k := 0;
      value := 0;
      while k < n
        invariant 0 <= k <= n && AllHex(text, pos, k) && value == HexValue(text, pos, k)
      {
        if !IsHex(At(text, pos + k)) {
          NotAllHex(text, pos, k + 1, n);
          return false, value;
        }
        value := value * 16 + AsHex(At(text, pos + k));
        k := k + 1;
      }
      ok := true;
    }

    /** Reads an escape sequence other than an escaped line break. */
    method ReadEscape(s: seq<nat>) returns (out: seq<nat>, problem: Problem, ok: bool)
      requires At(text, pos) == BACKSLASH && !IsBreak(At(text, pos + 1))
      modifies this
      ensures if ok then Inner(text, old(pos), old(column), s) == Inner(text, pos, column, out) && old(pos) < pos <= |text|
              else Inner(text, old(pos), old(column), s) == Failed(problem)
    {
      hide Between, Outer, AllHex, HexValue;
      out, problem := s, UnknownEscape;
      match Unescape(At(text, pos + 1)) {
        case Unknown => ok := false;
        case Single(c) =>
          out, ok := s + [c], true;
          Known(At(text, pos + 1));
          Skip();
          Skip();
        case Numeric(n) =>
          var hex, value;
          Known(At(text, pos + 1));
          ghost var p, col := pos, column;
          Skip();
          Skip();
          hex, value := ReadHex(n);
          if !hex {
            return s, BadHex, false;
          }
          if !IsScalar(value) {
            return s, BadCode, false;
          }
          HexInside(text, pos, n);
          out, ok := s + [value], true;
          pos, column := pos + n, column + n;
      }
    }

    /** Reads non-blank characters. Leading says that an escaped line break ended them. */
    method ReadWord(s: seq<nat>) returns (out: seq<nat>, leading: bool, problem: Problem, ok: bool)
      requires At(text, pos) != 0
      modifies this
      ensures !ok ==> Inner(text, old(pos), old(column), s) == Failed(problem)
      ensures ok ==> pos >= old(pos) && (leading ==> pos > old(pos))
      ensures ok && leading ==> Inner(text, old(pos), old(column), s) == Between(text, pos, column, out, AfterEscapedBreak)
      ensures ok && !leading ==> Inner(text, old(pos), old(column), s) == Inner(text, pos, column, out)
      ensures ok && !leading ==>
                At(text, pos) == QUOTE || (IsBlankz(At(text, pos)) && (pos == old(pos) ==> At(text, pos) != 0))
    {
      hide Between, Outer, Unescape, AllHex, HexValue;
      out, leading, problem, ok := s, false, UnknownEscape, true;
      while !IsBlankz(At(text, pos))
        invariant old(pos) <= pos
        invariant pos == old(pos) ==> At(text, pos) != 0
        invariant Inner(text, old(pos), old(column), s) == Inner(text, pos, column, out)
        decreases |text| - pos
      {
        if At(text, pos) == QUOTE {
          return;
        } else if At(text, pos) == BACKSLASH && IsBreak(At(text, pos + 1)) {
          Skip();
          var _ := ReadLine();
          leading := true;
          return;
        } else if At(text, pos) == BACKSLASH {
          out, problem, ok := ReadEscape(out);
          if !ok {
            return;
          }
        } else {
          out := out + [At(text, pos)];
          Skip();
        }
      }
    }

    /** Reads blanks and line breaks. */
    method ReadBlanks(leading: bool) returns (b: Blanks)
      modifies this
      ensures pos >= old(pos) && (IsBlank(At(text, old(pos))) || IsBreak(At(text, old(pos))) ==> pos > old(pos))
      ensures !IsBlank(At(text, pos)) && !IsBreak(At(text, pos))
      ensures forall s :: Between(text, old(pos), old(column), s, if leading then AfterEscapedBreak else None)
                       == Outer(text, pos, column, s + Join(b))
    {
      hide Outer, Join;
      b := if leading then AfterEscapedBreak else None;
      ghost var b0 := b;
      while IsBlank(At(text, pos)) || IsBreak(At(text, pos))
        invariant pos >= old(pos) && (pos == old(pos) ==> At(text, pos) == At(text, old(pos)))
        invariant forall s :: Between(text, old(pos), old(column), s, b0) == Between(text, pos, column, s, b)
        decreases |text| - pos
      {
        if IsBlank(At(text, pos)) {
          if !b.leading {
            b := b.(whitespaces := b.whitespaces + [At(text, pos)]);
          }
          Skip();
        } else {
          var c := ReadLine();
          if !b.leading {
            b := Blanks(true, [], b.leadingBreak + [c], b.trailing);
          } else {
            b := b.(trailing := b.trailing + [c]);
          }
        }
      }
    }

    /** Reads the double-quoted scalar at the current position. */
    method ScanFlowScalar() returns (r: Scanned)
      modifies this
      ensures r == Scan(text, old(pos), old(column))
      ensures r.Scalar? ==> pos == r.end
      ensures At(text, old(pos)) == QUOTE && r.Scalar? ==>
                pos > old(pos) && YamlReading.Denotes(text, old(pos), pos - old(pos), r.value)
      ensures At(text, old(pos)) == QUOTE ==>
                forall n: nat, v :: YamlReading.Denotes(text, old(pos), n, v) ==> r == Scalar(v, old(pos) + n)
    {
      hide YamlReading.Denotes;
      if At(text, pos) == QUOTE {
        DenotesAll(text, pos, column);
      }
      r := ReadFlowScalar();
    }

    /** yaml_parser_scan_flow_scalar. */
    method ReadFlowScalar() returns (r: Scanned)
      modifies this
      ensures r == Scan(text, old(pos), old(column))
      ensures r.Scalar? ==> pos == r.end
    {
      hide Between, Outer, Inner, Join, Indicator;
      Skip();
      var s, leading, problem, ok := [], false, UnknownEscape, true;
      while true
        invariant Scan(text, old(pos), old(column)) == Outer(text, pos, column, s)
        decreases Room(text, pos)
      {
        TopOfLoop(text, pos, column, s);
        if column == 0 && Indicator(text, pos) {
          return Failed(DocumentIndicator);
        }
        if At(text, pos) == 0 {
          return Failed(EndOfStream);
        }
        s, leading, problem, ok := ReadWord(s);
        if !ok {
          return Failed(problem);
        }
        if !leading {
          WordEnd(text, pos, column, s);
          if At(text, pos) == QUOTE {
            Skip();
            return Scalar(s, pos);
          }
        }
        var b := ReadBlanks(leading);
        s := s + Join(b);
      }
    }
  }

  lemma {:induction false} NotAllHex(t: seq<nat>, p: nat, k: nat, n: nat)
    requires k <= n && !AllHex(t, p, k)
    ensures !AllHex(t, p, n)
    decreases n
  {
    if k < n { NotAllHex(t, p, k, n - 1); }
  }

  lemma {:induction false} HexInside(t: seq<nat>, p: nat, n: nat)
    requires AllHex(t, p, n) && p <= |t|
    ensures p + n <= |t|
    decreases n
  {
    if n > 0 { HexInside(t, p, n - 1); }
  }

  lemma {:induction false} Known(letter: nat)
    requires !Unescape(letter).Unknown?
    ensures letter != 0
  {
  }

  lemma {:induction false} TopOfLoop(t: seq<nat>, p: nat, col: nat, s: seq<nat>)
    ensures col == 0 && Indicator(t, p) ==> Outer(t, p, col, s) == Failed(DocumentIndicator)
    ensures !(col == 0 && Indicator(t, p)) && At(t, p) == 0 ==> Outer(t, p, col, s) == Failed(EndOfStream)
    ensures !(col == 0 && Indicator(t, p)) && At(t, p) != 0 ==> Outer(t, p, col, s) == Inner(t, p, col, s)
  {
    hide Inner, Indicator;
  }

  lemma {:induction false} DenotesAll(t: seq<nat>, p: nat, col: nat)
    requires At(t, p) == QUOTE
    ensures var r := Scan(t, p, col); r.Scalar? ==> r.end > p && YamlReading.Denotes(t, p, r.end - p, r.value)
    ensures forall n: nat, v :: YamlReading.Denotes(t, p, n, v) ==> Scan(t, p, col) == Scalar(v, p + n)
  {
    hide Scan, YamlReading.Denotes;
    if Scan(t, p, col).Scalar? {
      var xs := YamlReading.IsSpelt(t, p, col);
      YamlReading.ReadsExactly(t, p, col, Scan(t, p, col).end - p, Scan(t, p, col).value);
    }
    forall n: nat, v | YamlReading.Denotes(t, p, n, v)
      ensures Scan(t, p, col) == Scalar(v, p + n)
    {
      YamlReading.ReadsExactly(t, p, col, n, v);
    }
  }

  lemma {:induction false} WordEnd(t: seq<nat>, p: nat, col: nat, s: seq<nat>)
    ensures IsBlankz(At(t, p)) ==> Inner(t, p, col, s) == Between(t, p, col, s, None)
    ensures At(t, p) == QUOTE ==> Inner(t, p, col, s) == Scalar(s, p + 1)
  {
    hide Between;
  }

  /** Printing a checked value and scanning it again returns the value if and only if it consists of
      characters, whatever the emitter has written before, whatever the settings, and whatever follows
      the scalar. */
  method PrintThenScan(e: Emitter, v: seq<nat>, following: seq<nat>, column: nat) returns (r: Scanned)
    requires e.Started() && AllCodes(v)
    modifies e
    ensures r == if AllScalars(v) then Scalar(v, |e.buffer|) else Failed(BadCode)
    ensures |e.buffer| >= |old(e.buffer)| && e.buffer[..|old(e.buffer)|] == old(e.buffer)
  {
    hide Inner, Outer, Between, Body, Has;
    ghost var start, style := e.buffer + Emitter.Gap(true, e.whitespace), e.ScalarSettings();
    var p := |e.buffer| + |Emitter.Gap(true, e.whitespace)|;
    ghost var ec := e.column + (p - |e.buffer|) + 1;
    e.EmitQuotedScalar(v);
    var t := e.buffer + following;
    Placed(t, start, Body(style, v, 0, ec, false), following);
    QuotedRoundTrip(style, v, t, p, column, ec);
    var scanner := new Scanner(t, p, column);
    r := scanner.ScanFlowScalar();
  }

  lemma {:induction false} Placed(t: seq<nat>, start: seq<nat>, body: seq<nat>, following: seq<nat>)
    requires t == start + [QUOTE] + body + [QUOTE] + following
    ensures Has(t, |start|, [QUOTE] + body + [QUOTE])
  {
    assert t == start + ([QUOTE] + body + [QUOTE]) + following;
  }
}
