/**
 * Reading a double-quoted scalar back: for every value and all settings of the emitter the scanner
 * returns the value. The indent is increased for every scalar, so that a folded line never begins
 * in the first column and is never taken for a document indicator.
 */
module YamlRoundTrip {
  import opened YamlChars
  import opened YamlQuoted

  /** The text t has x at position p. */
  predicate Has(t: seq<nat>, p: nat, x: seq<nat>) {
    p + |x| <= |t| && t[p..p + |x|] == x
  }

  lemma {:induction false} HasParts(t: seq<nat>, p: nat, x: seq<nat>, y: seq<nat>)
    requires Has(t, p, x + y)
    ensures Has(t, p, x) && Has(t, p + |x|, y)
  {
    var z := t[p..p + |x + y|];
    assert z[..|x|] == x && z[|x|..] == y;
    assert t[p..p + |x|] == z[..|x|];
    assert t[p + |x|..p + |x| + |y|] == z[|x|..];
  }

  lemma {:induction false} HasAt(t: seq<nat>, p: nat, x: seq<nat>, k: nat)
    requires Has(t, p, x) && k < |x|
    ensures At(t, p + k) == x[k]
  {
    assert t[p..p + |x|][k] == x[k];
  }

  // ----- escapes -----

  function Power(n: nat): nat {
    if n == 0 then 1 else 16 * Power(n - 1)
  }

  lemma {:induction false} DigitsLength(c: nat, n: nat)
    ensures |Digits(c, n)| == n
    decreases n
  {
    if n > 0 { DigitsLength(c / 16, n - 1); }
  }

  lemma {:induction false} HexRead(t: seq<nat>, p: nat, c: nat, n: nat)
    requires c < Power(n) && Has(t, p, Digits(c, n))
    ensures AllHex(t, p, n) && HexValue(t, p, n) == c
    decreases n
  {
    if n > 0 {
      DigitsLength(c / 16, n - 1);
      HasParts(t, p, Digits(c / 16, n - 1), [HexDigit(c % 16)]);
      HexRead(t, p, c / 16, n - 1);
      HasAt(t, p + (n - 1), [HexDigit(c % 16)], 0);
      assert AsHex(HexDigit(c % 16)) == c % 16;
    }
  }

  lemma {:induction false} LetterRead(c: nat)
    requires Letter(c) != 0
    ensures Unescape(Letter(c)) == Single(c) && !IsBreak(Letter(c))
  {
  }

  lemma {:induction false} Powers()
    ensures Power(2) == 0x100 && Power(4) == 0x1_0000 && Power(8) == 0x1_0000_0000
  {
    assert Power(1) == 16;
    assert Power(3) == 0x1000;
    assert Power(5) == 0x10_0000;
    assert Power(6) == 0x100_0000;
    assert Power(7) == 0x1000_0000;
  }

  lemma {:induction false} NumericRead(t: seq<nat>, p: nat, col: nat, out: seq<nat>, c: nat, letter: nat, n: nat)
    requires c < Power(n) && Has(t, p, [BACKSLASH, letter] + Digits(c, n))
    requires (letter, n) in {(0x78, 2), (0x75, 4), (0x55, 8)}
    ensures Inner(t, p, col, out)
         == if IsScalar(c) then Inner(t, p + 2 + n, col + 2 + n, out + [c]) else Failed(BadCode)
  {
    hide Has, Digits, Between;
    DigitsLength(c, n);
    HasParts(t, p, [BACKSLASH, letter], Digits(c, n));
    HasAt(t, p, [BACKSLASH, letter], 0);
    HasAt(t, p, [BACKSLASH, letter], 1);
    HexRead(t, p + 2, c, n);
    hide AllHex, HexValue, Power;
    assert Unescape(letter) == Numeric(n);
  }

  /** The scanner undoes every escape of the emitter, if it stands for a character. */
  lemma {:induction false} EscapeRead(t: seq<nat>, p: nat, col: nat, out: seq<nat>, c: nat)
    requires c < CODE_LIMIT && Has(t, p, Escape(c))
    ensures |Escape(c)| >= 2
    ensures Inner(t, p, col, out)
         == if IsScalar(c) then Inner(t, p + |Escape(c)|, col + |Escape(c)|, out + [c]) else Failed(BadCode)
  {
    hide Has, Digits, Power, AllHex, HexValue, Between;
    if Letter(c) != 0 {
      HasAt(t, p, Escape(c), 0);
      HasAt(t, p, Escape(c), 1);
      LetterRead(c);
      hide Letter, Unescape;
    } else {
      hide Inner, Letter;
      Powers();
      var n := if c <= 0xFF then 2 else if c <= 0xFFFF then 4 else 8;
      DigitsLength(c, n);
      NumericRead(t, p, col, out, c, if c <= 0xFF then 0x78 else if c <= 0xFFFF then 0x75 else 0x55, n);
    }
  }

  // ----- pieces -----

  /** From position p on the text is what is written for v[i..], and the right quote. */
  predicate Rest(s: Style, v: seq<nat>, t: seq<nat>, p: nat, i: nat, ec: int, spaces: bool)
    requires i <= |v|
  {
    Has(t, p, Body(s, v, i, ec, spaces) + [QUOTE])
  }

  lemma {:induction false} RestEnd(s: Style, v: seq<nat>, t: seq<nat>, p: nat, ec: int, spaces: bool)
    requires Rest(s, v, t, p, |v|, ec, spaces)
    ensures At(t, p) == QUOTE
  {
    HasAt(t, p, [QUOTE], 0);
  }

  lemma {:induction false} RestNext(s: Style, v: seq<nat>, t: seq<nat>, p: nat, i: nat, ec: int, spaces: bool)
    requires i < |v| && Rest(s, v, t, p, i, ec, spaces)
    ensures Has(t, p, Piece(s, v, i, ec, spaces))
    ensures Rest(s, v, t, p + |Piece(s, v, i, ec, spaces)|, i + 1, Column(s, v, i, ec, spaces), v[i] == SPACE)
    ensures |Body(s, v, i, ec, spaces)|
         == |Piece(s, v, i, ec, spaces)| + |Body(s, v, i + 1, Column(s, v, i, ec, spaces), v[i] == SPACE)|
  {
    hide Piece, Column, Has;
    var a, b := Piece(s, v, i, ec, spaces), Body(s, v, i + 1, Column(s, v, i, ec, spaces), v[i] == SPACE);
    assert Body(s, v, i, ec, spaces) + [QUOTE] == a + (b + [QUOTE]);
    HasParts(t, p, a, b + [QUOTE]);
  }

  /** The first character of a piece tells what it is. */
  lemma {:induction false} Head(s: Style, v: seq<nat>, i: nat, ec: int, spaces: bool)
    requires i < |v| && s.lineBreak != AnyBreak
    ensures var x := Piece(s, v, i, ec, spaces);
            && x != []
            && (NeedsEscape(s, v[i]) ==> x[0] == BACKSLASH)
            && (Folds(s, v, i, ec, spaces) ==> IsBreak(x[0]))
            && (!NeedsEscape(s, v[i]) && !Folds(s, v, i, ec, spaces) ==> x == [v[i]])
  {
  }

  lemma {:induction false} RestHead(s: Style, v: seq<nat>, t: seq<nat>, p: nat, i: nat, ec: int, spaces: bool)
    requires s.lineBreak != AnyBreak && i <= |v| && Rest(s, v, t, p, i, ec, spaces)
    ensures IsBlankz(At(t, p)) <==> i < |v| && v[i] == SPACE
    ensures spaces ==> !IsBreak(At(t, p))
  {
    hide Has, Body, Piece, Rest;
    if i == |v| {
      RestEnd(s, v, t, p, ec, spaces);
    } else {
      RestNext(s, v, t, p, i, ec, spaces);
      Head(s, v, i, ec, spaces);
      HasAt(t, p, Piece(s, v, i, ec, spaces), 0);
    }
  }

  // ----- folds -----

  lemma {:induction false} SpacesSkipped(t: seq<nat>, p: nat, col: nat, out: seq<nat>, b: Blanks, n: nat)
    requires Has(t, p, Spaces(n)) && b.leading
    ensures Between(t, p, col, out, b) == Between(t, p + n, col + n, out, b)
    decreases n
  {
    if n > 0 {
      HasAt(t, p, Spaces(n), 0);
      assert Spaces(n) == [SPACE] + Spaces(n - 1);
      HasParts(t, p, [SPACE], Spaces(n - 1));
      SpacesSkipped(t, p + 1, col + 1, out, b, n - 1);
    }
  }

  const Folded := Blanks(true, [], [LF], [])

  /** A line break and the margin after it read as one space. */
  lemma {:induction false} FoldRead(t: seq<nat>, p: nat, col: nat, out: seq<nat>, k: LineBreak, n: nat)
    requires k != AnyBreak && Has(t, p, BreakText(k) + Spaces(n))
    requires var c := At(t, p + |BreakText(k)| + n); !IsBlank(c) && !IsBreak(c)
    ensures Inner(t, p, col, out) == Outer(t, p + |BreakText(k)| + n, n, out + [SPACE])
  {
    HasParts(t, p, BreakText(k), Spaces(n));
    HasAt(t, p, BreakText(k), 0);
    var q := p + |BreakText(k)|;
    if k == CrlnBreak { HasAt(t, p, BreakText(k), 1); }
    if n > 0 { HasAt(t, q, Spaces(n), 0); }
    assert BreakLength(t, p) == |BreakText(k)|;
    assert [] + [LF] == [LF];
    assert AddBreak(None, LF) == Folded;
    assert Inner(t, p, col, out) == Between(t, p, col, out, None);
    assert Between(t, p, col, out, None) == Between(t, q, 0, out, Folded);
    SpacesSkipped(t, q, 0, out, Folded, n);
  }

  // ----- the round trip -----

  /** The value, and the position after the right quote that follows the text for v[i..]; the error, if
      the value does not consist of characters. */
  function Expected(s: Style, v: seq<nat>, p: nat, i: nat, ec: int, spaces: bool): Scanned
    requires i <= |v|
  {
    if AllScalars(v) then Scalar(v, p + |Body(s, v, i, ec, spaces)| + 1) else Failed(BadCode)
  }

  lemma {:induction false} ExpectedNext(s: Style, v: seq<nat>, t: seq<nat>, p: nat, i: nat, ec: int, spaces: bool)
    requires i < |v| && Rest(s, v, t, p, i, ec, spaces)
    ensures Expected(s, v, p, i, ec, spaces)
         == Expected(s, v, p + |Piece(s, v, i, ec, spaces)|, i + 1, Column(s, v, i, ec, spaces), v[i] == SPACE)
  {
    hide Has, Piece, Column;
    RestNext(s, v, t, p, i, ec, spaces);
  }

  lemma {:induction false} NoText(s: Style, v: seq<nat>, p: nat, i: nat, ec: int, spaces: bool)
    requires i < |v| && !IsScalar(v[i])
    ensures Expected(s, v, p, i, ec, spaces) == Failed(BadCode)
  {
  }

  lemma {:induction false} EndReads(s: Style, v: seq<nat>, t: seq<nat>, p: nat, col: nat, ec: int, spaces: bool)
    requires AllScalars(v[..|v|]) && Rest(s, v, t, p, |v|, ec, spaces)
    ensures Inner(t, p, col, v[..|v|]) == Expected(s, v, p, |v|, ec, spaces)
  {
    hide Has;
    RestEnd(s, v, t, p, ec, spaces);
    assert v[..|v|] == v;
  }

  lemma {:induction false} InnerReads(s: Style, v: seq<nat>, t: seq<nat>, p: nat, col: nat, i: nat, ec: int, spaces: bool)
    requires Usable(s) && AllCodes(v) && i <= |v| && AllScalars(v[..i]) && Rest(s, v, t, p, i, ec, spaces)
    ensures Inner(t, p, col, v[..i]) == Expected(s, v, p, i, ec, spaces)
    decreases |v| - i, 0
  {
    hide Has, Rest, Expected, Body, Escape, Outer, AllHex, HexValue, Unescape;
    if i == |v| {
      EndReads(s, v, t, p, col, ec, spaces);
    } else {
      RestNext(s, v, t, p, i, ec, spaces);
      var x := Piece(s, v, i, ec, spaces);
      assert v[..i] + [v[i]] == v[..i + 1];
      ExpectedNext(s, v, t, p, i, ec, spaces);
      if NeedsEscape(s, v[i]) {
        EscapeRead(t, p, col, v[..i], v[i]);
        if IsScalar(v[i]) {
          InnerReads(s, v, t, p + |x|, col + |x|, i + 1, Column(s, v, i, ec, spaces), v[i] == SPACE);
        } else {
          NoText(s, v, p, i, ec, spaces);
        }
      } else if Folds(s, v, i, ec, spaces) {
        FoldReads(s, v, t, p, col, i, ec, spaces);
      } else {
        HasAt(t, p, x, 0);
        if v[i] == SPACE {
          assert AddBlank(None, SPACE) == Blanks(false, [SPACE], [], []);
          BetweenReads(s, v, t, p + 1, col + 1, i + 1, ec + 1, v[..i], [SPACE]);
        } else {
          InnerReads(s, v, t, p + 1, col + 1, i + 1, ec + 1, false);
        }
      }
    }
  }

  lemma {:induction false} OuterPasses(t: seq<nat>, p: nat, col: nat, out: seq<nat>)
    requires col > 0 && At(t, p) != 0
    ensures Outer(t, p, col, out) == Inner(t, p, col, out)
  {
    hide Inner;
  }

  /** After a folded break the scanner is at the next character, in the margin's column. */
  lemma {:induction false} FoldReads(s: Style, v: seq<nat>, t: seq<nat>, p: nat, col: nat, i: nat, ec: int, spaces: bool)
    requires Usable(s) && AllCodes(v) && i < |v| && AllScalars(v[..i])
    requires Rest(s, v, t, p, i, ec, spaces) && Folds(s, v, i, ec, spaces)
    ensures Inner(t, p, col, v[..i]) == Expected(s, v, p, i, ec, spaces)
    decreases |v| - i - 1, 2
  {
    hide Has, Rest, Expected, Body, Inner, Outer, Between;
    var m, k := Margin(s), BreakText(s.lineBreak);
    var x := Piece(s, v, i, ec, spaces);
    RestNext(s, v, t, p, i, ec, spaces);
    ExpectedNext(s, v, t, p, i, ec, spaces);
    var q := p + |k| + m;
    assert v[..i] + [v[i]] == v[..i + 1];
    if v[i + 1] == SPACE {
      assert x == (k + Spaces(m)) + [BACKSLASH];
      HasParts(t, p, k + Spaces(m), [BACKSLASH]);
      HasAt(t, q, [BACKSLASH], 0);
      FoldRead(t, p, col, v[..i], s.lineBreak, m);
      OuterPasses(t, q, m, v[..i + 1]);
      Continued(s, v, t, q, m, i + 1);
    } else {
      assert x == k + Spaces(m);
      RestHead(s, v, t, q, i + 1, m, true);
      FoldRead(t, p, col, v[..i], s.lineBreak, m);
      OuterPasses(t, q, m, v[..i + 1]);
      InnerReads(s, v, t, q, m, i + 1, m, true);
    }
  }

  /** A backslash and a space at the beginning of a folded line. */
  lemma {:induction false} Continued(s: Style, v: seq<nat>, t: seq<nat>, q: nat, m: nat, i: nat)
    requires Usable(s) && AllCodes(v) && i < |v| && AllScalars(v[..i]) && v[i] == SPACE
    requires At(t, q) == BACKSLASH && Rest(s, v, t, q + 1, i, m + 1, true)
    ensures Inner(t, q, m, v[..i]) == Expected(s, v, q + 1, i, m + 1, true)
    decreases |v| - i, 1
  {
    hide Has, Rest, Expected, Body, Between, Outer;
    RestNext(s, v, t, q + 1, i, m + 1, true);
    Head(s, v, i, m + 1, true);
    HasAt(t, q + 1, [SPACE], 0);
    ExpectedNext(s, v, t, q + 1, i, m + 1, true);
    assert v[..i] + [v[i]] == v[..i + 1];
    InnerReads(s, v, t, q + 2, m + 2, i + 1, m + 2, true);
  }

  lemma {:induction false} BetweenReads(s: Style, v: seq<nat>, t: seq<nat>, p: nat, col: nat, i: nat, ec: int,
                                        out: seq<nat>, ws: seq<nat>)
    requires Usable(s) && AllCodes(v) && i <= |v| && AllScalars(v[..i])
    requires Rest(s, v, t, p, i, ec, true) && col > 0 && out + ws == v[..i]
    ensures Between(t, p, col, out, Blanks(false, ws, [], [])) == Expected(s, v, p, i, ec, true)
    decreases |v| - i, 1
  {
    hide Has, Rest, Expected, Body, Inner, Outer;
    RestHead(s, v, t, p, i, ec, true);
    if i < |v| && v[i] == SPACE {
      RestNext(s, v, t, p, i, ec, true);
      Head(s, v, i, ec, true);
      HasAt(t, p, [SPACE], 0);
      ExpectedNext(s, v, t, p, i, ec, true);
      assert out + (ws + [SPACE]) == v[..i + 1];
      BetweenReads(s, v, t, p + 1, col + 1, i + 1, ec + 1, out, ws + [SPACE]);
    } else {
      OuterPasses(t, p, col, v[..i]);
      InnerReads(s, v, t, p, col, i, ec, true);
    }
  }

  // ----- the theorem -----

  /** The text t has the double-quoted scalar v, from the left quote at p on; ec is the emitter's
      column after that quote. */
  predicate Quoted(s: Style, v: seq<nat>, t: seq<nat>, p: nat, ec: int) {
    Has(t, p, [QUOTE] + Body(s, v, 0, ec, false) + [QUOTE])
  }

  lemma {:induction false} BodyStarts(s: Style, v: seq<nat>, t: seq<nat>, p: nat, ec: int)
    requires s.lineBreak != AnyBreak && Rest(s, v, t, p, 0, ec, false)
    ensures At(t, p) != 0
  {
    hide Has, Body, Rest;
    if v == [] {
      RestEnd(s, v, t, p, ec, false);
    } else {
      RestNext(s, v, t, p, 0, ec, false);
      Head(s, v, 0, ec, false);
      HasAt(t, p, Piece(s, v, 0, ec, false), 0);
    }
  }

  /** For every checked value, every width, unicode setting and line break, at any place in any text:
      the scanner returns the value and stops after the right quote, if the value consists of
      characters, and refuses it otherwise. */
  lemma {:induction false} QuotedRoundTrip(s: Style, v: seq<nat>, t: seq<nat>, p: nat, col: nat, ec: int)
    requires Usable(s) && AllCodes(v) && Quoted(s, v, t, p, ec)
    ensures Scan(t, p, col)
         == if AllScalars(v) then Scalar(v, p + |Body(s, v, 0, ec, false)| + 2) else Failed(BadCode)
  {
    hide Has, Inner, Outer, Body;
    var x := Body(s, v, 0, ec, false);
    assert [QUOTE] + x + [QUOTE] == [QUOTE] + (x + [QUOTE]);
    HasParts(t, p, [QUOTE], x + [QUOTE]);
    assert v[..0] == [];
    BodyStarts(s, v, t, p + 1, ec);
    OuterPasses(t, p + 1, col + 1, []);
    InnerReads(s, v, t, p + 1, col + 1, 0, ec, false);
  }
}
