/**
 * What a double-quoted scalar denotes, told part by part and apart from the scanner: characters,
 * escape sequences, runs of blanks and line breaks, escaped line breaks. A text is a scalar for the
 * scanner exactly when it has such parts, and the value it returns is the one they denote.
 */
module YamlReading {
  import opened YamlChars
  import opened YamlQuoted
  import opened YamlRoundTrip

  // ----- parts -----

  datatype Break = Lf | Cr | CrLf | Nel | Ls | Ps

  /** A space, a tab or a line break between words. */
  datatype White = Space | Tab | Line(b: Break)

  datatype Digit = Digit(value: nat, upper: bool)

  /** A character for itself, \n and the like, \x0A and the like, a run of blanks and line breaks, and
      a backslash before a line break with the run after it. */
  datatype Part =
    | Plain(c: nat)
    | Short(letter: char)
    | Code(letter: char, digits: seq<Digit>)
    | Gap(ws: seq<White>)
    | Joined(b: Break, ws: seq<White>)

  /** The escape sequences of one letter. */
  const SHORT_ESCAPES: map<char, nat> := map[
    '0' := 0x00, 'a' := 0x07, 'b' := 0x08, 't' := 0x09, '\t' := 0x09, 'n' := 0x0A, 'v' := 0x0B, 'f' := 0x0C, 'r' := 0x0D,
    'e' := 0x1B, ' ' := 0x20, '"' := 0x22, '\'' := 0x27, '\\' := 0x5C, 'N' := 0x85, '_' := 0xA0, 'L' := 0x2028, 'P' := 0x2029]

  /** The others, and how many digits they have. */
  const CODE_ESCAPES: map<char, nat> := map['x' := 2, 'u' := 4, 'U' := 8]

  const LOWER_DIGITS := "0123456789abcdef"
  const UPPER_DIGITS := "0123456789ABCDEF"

  predicate OkPart(x: Part) {
    match x
    case Plain(c) => c != QUOTE && c != BACKSLASH && c != SPACE && c != TAB && c != 0 && !IsBreak(c)
    case Short(l) => l in SHORT_ESCAPES
    case Code(l, ds) => l in CODE_ESCAPES && |ds| == CODE_ESCAPES[l] && OkDigits(ds) && IsScalar(Number(ds))
    case Gap(ws) => ws != [] && Apart(ws)
    case Joined(b, ws) => Apart([Line(b)] + ws)
  }

  predicate OkDigits(ds: seq<Digit>) {
    forall i :: 0 <= i < |ds| ==> ds[i].value < 16
  }

  function Number(ds: seq<Digit>): nat {
    if ds == [] then 0 else 16 * Number(ds[..|ds| - 1]) + ds[|ds| - 1].value
  }

  /** CR and LF one after the other are a single break. */
  predicate Apart(ws: seq<White>) {
    forall i :: 0 < i < |ws| && ws[i - 1] == Line(Cr) ==> ws[i] != Line(Lf)
  }

  // ----- their text -----

  function BreakChars(b: Break): (r: seq<nat>)
    ensures r != []
  {
    match b
    case Lf => [LF]
    case Cr => [CR]
    case CrLf => [CR, LF]
    case Nel => [NEL]
    case Ls => [LS]
    case Ps => [PS]
  }

  function WhiteChars(w: White): (r: seq<nat>)
    ensures r != []
  {
    match w
    case Space => [SPACE]
    case Tab => [TAB]
    case Line(b) => BreakChars(b)
  }

  function RunText(ws: seq<White>): seq<nat> {
    if ws == [] then [] else WhiteChars(ws[0]) + RunText(ws[1..])
  }

  function DigitChar(d: Digit): nat
    requires d.value < 16
  {
    (if d.upper then UPPER_DIGITS[d.value] else LOWER_DIGITS[d.value]) as int
  }

  function DigitsText(ds: seq<Digit>): (r: seq<nat>)
    requires OkDigits(ds)
    ensures |r| == |ds|
  {
    if ds == [] then [] else DigitsText(ds[..|ds| - 1]) + [DigitChar(ds[|ds| - 1])]
  }

  function PartText(x: Part): seq<nat>
    requires OkPart(x)
  {
    match x
    case Plain(c) => [c]
    case Short(l) => [BACKSLASH, l as int]
    case Code(l, ds) => [BACKSLASH, l as int] + DigitsText(ds)
    case Gap(ws) => RunText(ws)
    case Joined(b, ws) => [BACKSLASH] + BreakChars(b) + RunText(ws)
  }

  predicate OkParts(xs: seq<Part>) {
    forall i :: 0 <= i < |xs| ==> OkPart(xs[i])
  }

  function Text(xs: seq<Part>): seq<nat>
    requires OkParts(xs)
  {
    if xs == [] then [] else PartText(xs[0]) + Text(xs[1..])
  }

  // ----- what they denote -----

  /** The separators of lines and paragraphs are kept; any other line break counts as a line feed. */
  function Kept(b: Break): nat {
    match b
    case Ls => LS
    case Ps => PS
    case _ => LF
  }

  function Breaks(ws: seq<White>): seq<nat> {
    if ws == [] then [] else (if ws[0].Line? then [Kept(ws[0].b)] else []) + Breaks(ws[1..])
  }

  /** A run within a line stands for itself. Of a run with line breaks the blanks do not count; a
      single line feed is read as a space, and of several the first is dropped. */
  function GapValue(ws: seq<White>): seq<nat> {
    var bs := Breaks(ws);
    if bs == [] then RunText(ws) else if bs == [LF] then [SPACE] else if bs[0] == LF then bs[1..] else bs
  }

  function PartValue(x: Part): seq<nat>
    requires OkPart(x)
  {
    match x
    case Plain(c) => [c]
    case Short(l) => [SHORT_ESCAPES[l]]
    case Code(_, ds) => [Number(ds)]
    case Gap(ws) => GapValue(ws)
    case Joined(_, ws) => Breaks(ws)
  }

  function Value(xs: seq<Part>): seq<nat>
    requires OkParts(xs)
  {
    if xs == [] then [] else PartValue(xs[0]) + Value(xs[1..])
  }

  // ----- which parts may follow each other -----

  /** The next part begins a line. */
  predicate EndsLine(x: Part) {
    (x.Gap? && x.ws != [] && x.ws[|x.ws| - 1].Line?) || (x.Joined? && (x.ws == [] || x.ws[|x.ws| - 1].Line?))
  }

  /** "---" or "..." before a blank or a line break. */
  predicate Marks(xs: seq<Part>) {
    && |xs| >= 4 && xs[3].Gap?
    && (xs[..3] == [Plain(0x2D), Plain(0x2D), Plain(0x2D)] || xs[..3] == [Plain(0x2E), Plain(0x2E), Plain(0x2E)])
  }

  /** Runs are taken whole, and no line begins with a document indicator. */
  predicate Fits(xs: seq<Part>, i: nat)
    requires 0 < i < |xs|
  {
    && (xs[i - 1].Gap? || xs[i - 1].Joined? ==> !xs[i].Gap?)
    && (EndsLine(xs[i - 1]) ==> !Marks(xs[i..]))
  }

  predicate WellFormed(xs: seq<Part>) {
    OkParts(xs) && forall i :: 0 < i < |xs| ==> Fits(xs, i)
  }

  /** From position p on, t is a quoted scalar of n characters whose parts denote v. */
  ghost predicate Denotes(t: seq<nat>, p: nat, n: nat, v: seq<nat>) {
    exists xs :: Spells(t, p, xs, n, v)
  }

  ghost predicate Spells(t: seq<nat>, p: nat, xs: seq<Part>, n: nat, v: seq<nat>) {
    && WellFormed(xs) && Value(xs) == v && n == |Text(xs)| + 2
    && Has(t, p, [QUOTE] + Text(xs) + [QUOTE])
  }

  // ----- a run of blanks and line breaks -----

  function Add(b: Blanks, w: White): Blanks {
    match w
    case Space => AddBlank(b, SPACE)
    case Tab => AddBlank(b, TAB)
    case Line(x) => AddBreak(b, Kept(x))
  }

  function AddAll(b: Blanks, ws: seq<White>): Blanks
    decreases |ws|
  {
    if ws == [] then b else AddAll(Add(b, ws[0]), ws[1..])
  }

  /** The column after a run. */
  function After(ws: seq<White>, col: nat): nat
    decreases |ws|
  {
    if ws == [] then col else After(ws[1..], if ws[0].Line? then 0 else col + 1)
  }

  lemma {:induction false} AfterZero(ws: seq<White>, col: nat)
    requires ws != []
    ensures After(ws, col) == 0 <==> ws[|ws| - 1].Line?
    decreases |ws|
  {
    if |ws| > 1 {
      AfterZero(ws[1..], if ws[0].Line? then 0 else col + 1);
    } else {
      assert ws[1..] == [];
    }
  }

  lemma {:induction false} AfterJoined(b: Break, ws: seq<White>)
    ensures After(ws, 0) == 0 <==> EndsLine(Joined(b, ws))
  {
    if ws != [] {
      AfterZero(ws, 0);
    }
  }

  lemma {:induction false} Leading(b: Blanks, ws: seq<White>)
    requires b.leading
    ensures AddAll(b, ws) == b.(trailing := b.trailing + Breaks(ws))
    decreases |ws|
  {
    hide Kept;
    if ws == [] {
      assert b.trailing + [] == b.trailing;
    } else if ws[0].Line? {
      var k := Kept(ws[0].b);
      var c := b.(trailing := b.trailing + [k]);
      Leading(c, ws[1..]);
      assert c.trailing + Breaks(ws[1..]) == b.trailing + ([k] + Breaks(ws[1..]));
    } else {
      Leading(b, ws[1..]);
      assert Breaks(ws) == Breaks(ws[1..]);
    }
  }

  lemma {:induction false} NotLeading(w: seq<nat>, ws: seq<White>)
    ensures var bs := Breaks(ws);
            AddAll(Blanks(false, w, [], []), ws)
            == if bs == [] then Blanks(false, w + RunText(ws), [], []) else Blanks(true, [], [bs[0]], bs[1..])
    decreases |ws|
  {
    var b := Blanks(false, w, [], []);
    if ws == [] {
      assert w + [] == w;
    } else if ws[0].Line? {
      var k := Kept(ws[0].b);
      assert [] + [k] == [k];
      assert Add(b, ws[0]) == Blanks(true, [], [k], []);
      Leading(Add(b, ws[0]), ws[1..]);
      assert [] + Breaks(ws[1..]) == Breaks(ws[1..]) == Breaks(ws)[1..];
    } else {
      NotLeading(w + WhiteChars(ws[0]), ws[1..]);
      assert w + RunText(ws) == w + WhiteChars(ws[0]) + RunText(ws[1..]);
      assert Breaks(ws) == Breaks(ws[1..]);
    }
  }

  /** What the scanner makes of a run is what the run denotes. */
  lemma {:induction false} RunMeans(ws: seq<White>)
    ensures Join(AddAll(None, ws)) == GapValue(ws)
    ensures Join(AddAll(AfterEscapedBreak, ws)) == Breaks(ws)
  {
    hide AddAll, RunText, Breaks;
    NotLeading([], ws);
    Leading(AfterEscapedBreak, ws);
    var bs := Breaks(ws);
    assert [] + RunText(ws) == RunText(ws) && [] + bs == bs;
    if bs != [] {
      assert bs == [bs[0]] + bs[1..];
    }
  }

  lemma {:induction false} WhiteRead(t: seq<nat>, p: nat, col: nat, out: seq<nat>, b: Blanks, w: White)
    requires Has(t, p, WhiteChars(w)) && (w == Line(Cr) ==> At(t, p + 1) != LF)
    ensures Between(t, p, col, out, b) == Between(t, p + |WhiteChars(w)|, if w.Line? then 0 else col + 1, out, Add(b, w))
  {
    hide Has, Outer;
    HasAt(t, p, WhiteChars(w), 0);
    if w == Line(CrLf) {
      HasAt(t, p, WhiteChars(w), 1);
    }
  }

  /** A run begins with a blank or a line break; with LF only if it begins with the break LF. */
  lemma {:induction false} RunHead(t: seq<nat>, p: nat, ws: seq<White>)
    requires ws != [] && Has(t, p, RunText(ws))
    ensures IsBlank(At(t, p)) || IsBreak(At(t, p))
    ensures At(t, p) == LF <==> ws[0] == Line(Lf)
    ensures Has(t, p, WhiteChars(ws[0])) && Has(t, p + |WhiteChars(ws[0])|, RunText(ws[1..]))
  {
    hide Has;
    HasParts(t, p, WhiteChars(ws[0]), RunText(ws[1..]));
    HasAt(t, p, WhiteChars(ws[0]), 0);
  }

  predicate Black(c: nat) {
    !IsBlank(c) && !IsBreak(c)
  }

  lemma {:induction false} RunRead(t: seq<nat>, p: nat, col: nat, out: seq<nat>, b: Blanks, ws: seq<White>)
    requires Has(t, p, RunText(ws)) && Apart(ws) && Black(At(t, p + |RunText(ws)|))
    ensures Between(t, p, col, out, b) == Outer(t, p + |RunText(ws)|, After(ws, col), out + Join(AddAll(b, ws)))
    decreases |ws|
  {
    hide Has, Outer, Join, Add, Kept;
    if ws != [] {
      RunHead(t, p, ws);
      var q := p + |WhiteChars(ws[0])|;
      if |ws| > 1 {
        RunHead(t, q, ws[1..]);
      }
      NextBlack(t, p, ws);
      WhiteRead(t, p, col, out, b, ws[0]);
      RunRead(t, q, if ws[0].Line? then 0 else col + 1, out, Add(b, ws[0]), ws[1..]);
    }
  }

  lemma {:induction false} NextBlack(t: seq<nat>, p: nat, ws: seq<White>)
    requires ws != [] && Has(t, p, RunText(ws)) && Apart(ws) && Black(At(t, p + |RunText(ws)|))
    ensures ws[0] == Line(Cr) ==> At(t, p + 1) != LF
    ensures Apart(ws[1..])
  {
    hide Has;
    if |ws| > 1 {
      RunHead(t, p, ws);
      RunHead(t, p + |WhiteChars(ws[0])|, ws[1..]);
    } else {
      assert ws[1..] == [];
    }
  }

  // ----- escape sequences -----

  lemma {:induction false} ShortRead(l: char)
    requires l in SHORT_ESCAPES
    ensures Unescape(l as int) == Single(SHORT_ESCAPES[l]) && !IsBreak(l as int)
  {
  }

  lemma {:induction false} CodeRead(l: char)
    requires l in CODE_ESCAPES
    ensures Unescape(l as int) == Numeric(CODE_ESCAPES[l]) && !IsBreak(l as int)
  {
  }

  /** There are no other escape sequences. */
  lemma {:induction false} EscapeKnown(c: nat)
    requires !Unescape(c).Unknown?
    ensures c < 0x80
    ensures Unescape(c).Single? ==> c as char in SHORT_ESCAPES && SHORT_ESCAPES[c as char] == Unescape(c).c
    ensures Unescape(c).Numeric? ==> c as char in CODE_ESCAPES && CODE_ESCAPES[c as char] == Unescape(c).digits
  {
  }

  lemma {:induction false} DigitRead(d: Digit)
    requires d.value < 16
    ensures IsHex(DigitChar(d)) && AsHex(DigitChar(d)) == d.value
  {
    var v := d.value;
    if v < 4 {
      assert v == 0 || v == 1 || v == 2 || v == 3;
    } else if v < 8 {
      assert v == 4 || v == 5 || v == 6 || v == 7;
    } else if v < 12 {
      assert v == 8 || v == 9 || v == 10 || v == 11;
    } else {
      assert v == 12 || v == 13 || v == 14 || v == 15;
    }
  }

  lemma {:induction false} DigitKnown(c: nat)
    requires IsHex(c)
    ensures DigitChar(Digit(AsHex(c), 0x41 <= c <= 0x46)) == c
  {
    var d := Digit(AsHex(c), 0x41 <= c <= 0x46);
    DigitRead(d);
  }

  lemma {:induction false} DigitsRead(t: seq<nat>, p: nat, ds: seq<Digit>)
    requires OkDigits(ds) && Has(t, p, DigitsText(ds))
    ensures AllHex(t, p, |ds|) && HexValue(t, p, |ds|) == Number(ds)
    decreases |ds|
  {
    hide Has, DigitChar, IsHex, AsHex;
    if ds != [] {
      var n := |ds| - 1;
      HasParts(t, p, DigitsText(ds[..n]), [DigitChar(ds[n])]);
      DigitsRead(t, p, ds[..n]);
      HasAt(t, p + n, [DigitChar(ds[n])], 0);
      DigitRead(ds[n]);
    }
  }

  lemma {:induction false} HasJoin(t: seq<nat>, p: nat, x: seq<nat>, y: seq<nat>)
    requires Has(t, p, x) && Has(t, p + |x|, y)
    ensures Has(t, p, x + y)
  {
    assert t[p..p + |x + y|] == t[p..p + |x|] + t[p + |x|..p + |x| + |y|];
  }

  lemma {:induction false} HasOne(t: seq<nat>, p: nat, c: nat)
    requires p < |t| && t[p] == c
    ensures Has(t, p, [c])
  {
  }

  /** Any hexadecimal digits are the text of some. */
  lemma {:induction false} DigitsFound(t: seq<nat>, p: nat, n: nat) returns (ds: seq<Digit>)
    requires AllHex(t, p, n)
    requires p <= |t|
    ensures |ds| == n && OkDigits(ds) && Has(t, p, DigitsText(ds)) && Number(ds) == HexValue(t, p, n)
    decreases n
  {
    hide Has, DigitChar, AsHex;
    ds := [];
    if n == 0 {
      HasNone(t, p);
    } else {
      var c := At(t, p + n - 1);
      var d := Digit(AsHex(c), 0x41 <= c <= 0x46);
      var most := DigitsFound(t, p, n - 1);
      ds := most + [d];
      assert ds[..n - 1] == most;
      DigitKnown(c);
      HexBelow(c);
      HasOne(t, p + n - 1, c);
      HasJoin(t, p, DigitsText(most), [c]);
    }
  }

  lemma {:induction false} HexBelow(c: nat)
    requires IsHex(c)
    ensures AsHex(c) < 16 && c != 0
  {
  }

  lemma {:induction false} HasNone(t: seq<nat>, p: nat)
    requires p <= |t|
    ensures Has(t, p, [])
  {
  }

  // ----- the first character of what is left -----

  /** The text of xs and the right quote stand at p. */
  predicate Ahead(t: seq<nat>, p: nat, xs: seq<Part>)
    requires OkParts(xs)
  {
    Has(t, p, Text(xs) + [QUOTE])
  }

  lemma {:induction false} AheadNext(t: seq<nat>, p: nat, xs: seq<Part>)
    requires OkParts(xs) && xs != [] && Ahead(t, p, xs)
    ensures OkParts(xs[1..]) && Has(t, p, PartText(xs[0])) && Ahead(t, p + |PartText(xs[0])|, xs[1..])
  {
    hide Has, PartText, OkPart;
    assert Text(xs) + [QUOTE] == PartText(xs[0]) + (Text(xs[1..]) + [QUOTE]);
    HasParts(t, p, PartText(xs[0]), Text(xs[1..]) + [QUOTE]);
  }

  lemma {:induction false} PartHead(t: seq<nat>, p: nat, x: Part)
    requires OkPart(x) && Has(t, p, PartText(x))
    ensures PartText(x) != []
    ensures x.Gap? <==> !Black(At(t, p))
    ensures x.Plain? ==> At(t, p) == x.c
    ensures x.Short? || x.Code? || x.Joined? ==> At(t, p) == BACKSLASH
  {
    hide Has;
    if x.Gap? {
      RunHead(t, p, x.ws);
      assert PartText(x) == WhiteChars(x.ws[0]) + RunText(x.ws[1..]);
    } else {
      HasAt(t, p, PartText(x), 0);
    }
  }

  /** Quote, blank or break, or a plain character: the character at p tells what comes. */
  lemma {:induction false} AheadHead(t: seq<nat>, p: nat, xs: seq<Part>)
    requires OkParts(xs) && Ahead(t, p, xs)
    ensures xs == [] <==> At(t, p) == QUOTE
    ensures IsBlankz(At(t, p)) <==> xs != [] && xs[0].Gap?
    ensures At(t, p) != 0
    ensures forall c :: c == 0x2D || c == 0x2E ==> (At(t, p) == c <==> xs != [] && xs[0] == Plain(c))
  {
    hide Has;
    if xs == [] {
      assert Text(xs) + [QUOTE] == [QUOTE];
      HasAt(t, p, [QUOTE], 0);
    } else {
      AheadNext(t, p, xs);
      PartHead(t, p, xs[0]);
    }
  }

  /** Document indicators on both sides are the same. */
  lemma {:induction false} MarksRead(t: seq<nat>, p: nat, xs: seq<Part>)
    requires OkParts(xs) && Ahead(t, p, xs)
    ensures Indicator(t, p) <==> Marks(xs)
  {
    hide Ahead, OkPart, IsBlankz;
    AheadHead(t, p, xs);
    if xs != [] && (xs[0] == Plain(0x2D) || xs[0] == Plain(0x2E)) {
      AheadNext(t, p, xs);
      AheadHead(t, p + 1, xs[1..]);
      if |xs| > 1 && xs[1] == xs[0] {
        AheadNext(t, p + 1, xs[1..]);
        AheadHead(t, p + 2, xs[2..]);
        if |xs| > 2 && xs[2] == xs[0] {
          AheadNext(t, p + 2, xs[2..]);
          AheadHead(t, p + 3, xs[3..]);
          assert xs[..3] == [xs[0], xs[0], xs[0]];
        }
      }
    }
  }

  // ----- a text with parts is read -----

  lemma {:induction false} RestFits(xs: seq<Part>)
    requires xs != [] && WellFormed(xs)
    ensures WellFormed(xs[1..])
    ensures |xs| > 1 && (xs[0].Gap? || xs[0].Joined?) ==> !xs[1].Gap?
    ensures EndsLine(xs[0]) ==> !Marks(xs[1..])
  {
    hide OkPart, EndsLine;
    assert |xs| > 1 ==> Fits(xs, 1);
    forall i | 0 < i < |xs[1..]|
      ensures Fits(xs[1..], i)
    {
      assert Fits(xs, i + 1) && xs[1..][i..] == xs[i + 1..];
    }
  }

  lemma {:induction false} Passes(t: seq<nat>, p: nat, col: nat, out: seq<nat>, xs: seq<Part>)
    requires OkParts(xs) && Ahead(t, p, xs) && (col == 0 ==> !Marks(xs))
    ensures Outer(t, p, col, out) == Inner(t, p, col, out)
  {
    hide Ahead, OkPart, Marks, Inner, Indicator;
    MarksRead(t, p, xs);
    AheadHead(t, p, xs);
  }

  /** The part at p is read, and the scanner is at the next. */
  lemma {:induction false} GapRead(t: seq<nat>, p: nat, col: nat, out: seq<nat>, xs: seq<Part>)
    requires xs != [] && WellFormed(xs) && Ahead(t, p, xs) && xs[0].Gap?
    ensures var q, c := p + |PartText(xs[0])|, After(xs[0].ws, col);
            Inner(t, p, col, out) == Inner(t, q, c, out + PartValue(xs[0]))
  {
    hide Ahead, OkPart, Marks, Has, Outer, Between, GapValue, Join;
    var ws := xs[0].ws;
    assert ws != [] && Apart(ws) by { GapOk(xs[0]); }
    AheadNext(t, p, xs);
    PartHead(t, p, xs[0]);
    AheadHead(t, p, xs);
    RestFits(xs);
    var q := p + |RunText(ws)|;
    AheadHead(t, q, xs[1..]);
    BlackNext(t, q, xs[1..]);
    assert Inner(t, p, col, out) == Between(t, p, col, out, None) by { ToBetween(t, p, col, out); }
    RunRead(t, p, col, out, None, ws);
    RunMeans(ws);
    AfterZero(ws, col);
    Passes(t, q, After(ws, col), out + GapValue(ws), xs[1..]);
  }

  lemma {:induction false} GapOk(x: Part)
    requires OkPart(x) && x.Gap?
    ensures x.ws != [] && Apart(x.ws)
  {
  }

  lemma {:induction false} BlackNext(t: seq<nat>, q: nat, xs: seq<Part>)
    requires OkParts(xs) && Ahead(t, q, xs) && (xs != [] ==> !xs[0].Gap?)
    ensures Black(At(t, q))
  {
    hide Ahead, OkPart;
    AheadHead(t, q, xs);
  }

  lemma {:induction false} ToBetween(t: seq<nat>, p: nat, col: nat, out: seq<nat>)
    requires IsBlankz(At(t, p))
    ensures Inner(t, p, col, out) == Between(t, p, col, out, None)
  {
    hide Between;
  }

  /** Where the run after an escaped line break begins. */
  lemma {:induction false} JoinedHead(t: seq<nat>, p: nat, x: Part)
    requires OkPart(x) && x.Joined? && Has(t, p, PartText(x)) && Black(At(t, p + |PartText(x)|))
    ensures At(t, p) == BACKSLASH && IsBreak(At(t, p + 1)) && BreakLength(t, p + 1) == |BreakChars(x.b)|
    ensures Has(t, p + 1 + |BreakChars(x.b)|, RunText(x.ws)) && Apart(x.ws)
  {
    hide Has, Black, BreakChars, BreakLength, Apart, IsBreak;
    var whole := [Line(x.b)] + x.ws;
    WholeText(x);
    HasParts(t, p, [BACKSLASH], RunText(whole));
    HasAt(t, p, [BACKSLASH], 0);
    RunHead(t, p + 1, whole);
    NextBlack(t, p + 1, whole);
    assert whole[1..] == x.ws;
    BreakIs(t, p + 1, x.b);
  }

  lemma {:induction false} WholeText(x: Part)
    requires OkPart(x) && x.Joined?
    ensures PartText(x) == [BACKSLASH] + RunText([Line(x.b)] + x.ws)
    ensures Apart([Line(x.b)] + x.ws)
  {
    hide BreakChars;
    var whole := [Line(x.b)] + x.ws;
    assert whole[1..] == x.ws;
    assert [BACKSLASH] + BreakChars(x.b) + RunText(x.ws) == [BACKSLASH] + (BreakChars(x.b) + RunText(x.ws));
  }

  lemma {:induction false} BreakIs(t: seq<nat>, p: nat, b: Break)
    requires Has(t, p, BreakChars(b)) && (b == Cr ==> At(t, p + 1) != LF)
    ensures IsBreak(At(t, p)) && BreakLength(t, p) == |BreakChars(b)|
  {
    hide Has;
    HasAt(t, p, BreakChars(b), 0);
    if b == CrLf {
      HasAt(t, p, BreakChars(b), 1);
    }
  }

  lemma {:induction false} JoinedRead(t: seq<nat>, p: nat, col: nat, out: seq<nat>, xs: seq<Part>)
    requires xs != [] && WellFormed(xs) && Ahead(t, p, xs) && xs[0].Joined?
    ensures var q, c := p + |PartText(xs[0])|, After(xs[0].ws, 0);
            Inner(t, p, col, out) == Inner(t, q, c, out + PartValue(xs[0]))
  {
    hide Ahead, OkPart, Marks, Has, Outer, Between, Join, BreakLength, EndsLine, After, RunText, Breaks;
    var x := xs[0];
    var r, q := p + 1 + |BreakChars(x.b)|, p + |PartText(x)|;
    AheadNext(t, p, xs);
    RestFits(xs);
    BlackNext(t, q, xs[1..]);
    JoinedHead(t, p, x);
    assert Inner(t, p, col, out) == Between(t, r, 0, out, AfterEscapedBreak);
    RunRead(t, r, 0, out, AfterEscapedBreak, x.ws);
    RunMeans(x.ws);
    AfterJoined(x.b, x.ws);
    Passes(t, q, After(x.ws, 0), out + Breaks(x.ws), xs[1..]);
  }

  lemma {:induction false} WordRead(t: seq<nat>, p: nat, col: nat, out: seq<nat>, x: Part)
    requires OkPart(x) && Has(t, p, PartText(x)) && !x.Gap? && !x.Joined?
    ensures Inner(t, p, col, out) == Inner(t, p + |PartText(x)|, col + |PartText(x)|, out + PartValue(x))
  {
    hide Has, Inner, OkPart;
    match x
    case Plain(_) => PlainRead(t, p, col, out, x);
    case Short(_) => ShortPartRead(t, p, col, out, x);
    case Code(_, _) => CodePartRead(t, p, col, out, x);
  }

  lemma {:induction false} PlainRead(t: seq<nat>, p: nat, col: nat, out: seq<nat>, x: Part)
    requires OkPart(x) && Has(t, p, PartText(x)) && x.Plain?
    ensures Inner(t, p, col, out) == Inner(t, p + 1, col + 1, out + [x.c])
  {
    hide Has, Between, AllHex, HexValue, Unescape;
    HasAt(t, p, [x.c], 0);
  }

  lemma {:induction false} ShortPartRead(t: seq<nat>, p: nat, col: nat, out: seq<nat>, x: Part)
    requires OkPart(x) && Has(t, p, PartText(x)) && x.Short?
    ensures Inner(t, p, col, out) == Inner(t, p + 2, col + 2, out + [SHORT_ESCAPES[x.letter]])
  {
    hide Has, Between, AllHex, HexValue, Unescape, IsBreak;
    var l := x.letter;
    HasAt(t, p, [BACKSLASH, l as int], 0);
    HasAt(t, p, [BACKSLASH, l as int], 1);
    ShortRead(l);
    assert !IsBlankz(BACKSLASH) by { BackslashBlack(); }
  }

  lemma {:induction false} BackslashBlack()
    ensures !IsBlankz(BACKSLASH)
  {
  }

  lemma {:induction false} CodePartRead(t: seq<nat>, p: nat, col: nat, out: seq<nat>, x: Part)
    requires OkPart(x) && Has(t, p, PartText(x)) && x.Code?
    ensures var n := 2 + |x.digits|; Inner(t, p, col, out) == Inner(t, p + n, col + n, out + [Number(x.digits)])
  {
    hide Has, Between, AllHex, HexValue, Unescape, IsBreak, DigitsText, Number;
    var l, ds := x.letter, x.digits;
    HasParts(t, p, [BACKSLASH, l as int], DigitsText(ds));
    HasAt(t, p, [BACKSLASH, l as int], 0);
    HasAt(t, p, [BACKSLASH, l as int], 1);
    CodeRead(l);
    DigitsRead(t, p + 2, ds);
    BackslashBlack();
  }

  lemma {:induction false} PartsRead(t: seq<nat>, p: nat, col: nat, out: seq<nat>, xs: seq<Part>)
    requires WellFormed(xs) && Ahead(t, p, xs)
    ensures Inner(t, p, col, out) == Scalar(out + Value(xs), p + |Text(xs)| + 1)
    decreases |xs|
  {
    hide Ahead, OkPart, PartText, PartValue, Fits, Inner;
    if xs == [] {
      AheadHead(t, p, xs);
      assert out + [] == out;
      AtQuote(t, p, col, out);
    } else {
      AheadNext(t, p, xs);
      RestFits(xs);
      var x, q := xs[0], p + |PartText(xs[0])|;
      assert out + Value(xs) == out + PartValue(x) + Value(xs[1..]);
      if x.Gap? {
        GapRead(t, p, col, out, xs);
        PartsRead(t, q, After(x.ws, col), out + PartValue(x), xs[1..]);
      } else if x.Joined? {
        JoinedRead(t, p, col, out, xs);
        PartsRead(t, q, After(x.ws, 0), out + PartValue(x), xs[1..]);
      } else {
        WordRead(t, p, col, out, x);
        PartsRead(t, q, col + |PartText(x)|, out + PartValue(x), xs[1..]);
      }
    }
  }

  lemma {:induction false} AtQuote(t: seq<nat>, p: nat, col: nat, out: seq<nat>)
    requires At(t, p) == QUOTE
    ensures Inner(t, p, col, out) == Scalar(out, p + 1)
  {
  }

  // ----- a text that is read has parts -----

  lemma {:induction false} RunFound(t: seq<nat>, p: nat) returns (ws: seq<White>)
    requires p <= |t|
    ensures Has(t, p, RunText(ws)) && Apart(ws) && Black(At(t, p + |RunText(ws)|))
    ensures ws == [] <==> Black(At(t, p))
    decreases |t| - p
  {
    hide Has;
    ws := [];
    if Black(At(t, p)) {
      HasNone(t, p);
    } else {
      var w := WhiteAt(t, p);
      var rest := RunFound(t, p + |WhiteChars(w)|);
      ws := [w] + rest;
      assert ws[1..] == rest;
      HasJoin(t, p, WhiteChars(w), RunText(rest));
      if rest != [] {
        RunHead(t, p + |WhiteChars(w)|, rest);
      }
      FrontApart(w, rest);
    }
  }

  lemma {:induction false} FrontApart(w: White, rest: seq<White>)
    requires Apart(rest) && (rest != [] && w == Line(Cr) ==> rest[0] != Line(Lf))
    ensures Apart([w] + rest)
  {
    var ws := [w] + rest;
    forall i | 0 < i < |ws| && ws[i - 1] == Line(Cr)
      ensures ws[i] != Line(Lf)
    {
      assert i > 1 ==> ws[i] == rest[i - 1] && ws[i - 1] == rest[i - 2];
    }
  }

  /** The blank or line break at p. */
  lemma {:induction false} WhiteAt(t: seq<nat>, p: nat) returns (w: White)
    requires !Black(At(t, p))
    ensures Has(t, p, WhiteChars(w)) && (w == Line(Cr) ==> At(t, p + 1) != LF)
    ensures w.Line? <==> IsBreak(At(t, p))
    ensures w.Line? ==> BreakLength(t, p) == |BreakChars(w.b)|
  {
    var c := At(t, p);
    w := if c == SPACE then Space
         else if c == TAB then Tab
         else if c == CR then Line(if At(t, p + 1) == LF then CrLf else Cr)
         else if c == LF then Line(Lf)
         else if c == NEL then Line(Nel)
         else if c == LS then Line(Ls)
         else Line(Ps);
    assert w == Line(CrLf) ==> t[p..p + 2] == [CR, LF];
    assert t[p..p + 1] == [c];
  }

  lemma {:induction false} FrontFits(x: Part, xs: seq<Part>)
    requires OkPart(x) && WellFormed(xs) && (xs != [] && (x.Gap? || x.Joined?) ==> !xs[0].Gap?)
    requires EndsLine(x) ==> !Marks(xs)
    ensures WellFormed([x] + xs)
  {
    hide OkPart, EndsLine, Marks;
    var ys := [x] + xs;
    forall i | 0 < i < |ys|
      ensures Fits(ys, i)
    {
      if i == 1 {
        assert ys[1..] == xs;
      } else {
        assert Fits(xs, i - 1) && ys[i..] == xs[i - 1..];
      }
    }
  }

  /** One more part in front. */
  lemma {:induction false} FrontAhead(t: seq<nat>, p: nat, x: Part, xs: seq<Part>)
    requires OkPart(x) && OkParts(xs) && Has(t, p, PartText(x)) && Ahead(t, p + |PartText(x)|, xs)
    ensures OkParts([x] + xs) && Ahead(t, p, [x] + xs)
    ensures Text([x] + xs) == PartText(x) + Text(xs) && Value([x] + xs) == PartValue(x) + Value(xs)
  {
    hide Has, OkPart, PartText, PartValue;
    assert ([x] + xs)[1..] == xs;
    HasJoin(t, p, PartText(x), Text(xs) + [QUOTE]);
    assert PartText(x) + (Text(xs) + [QUOTE]) == Text([x] + xs) + [QUOTE];
  }

  /** The character or escape sequence at p, if the scanner goes on after it. */
  lemma {:induction false} WordFound(t: seq<nat>, p: nat, col: nat, out: seq<nat>) returns (x: Part)
    requires Inner(t, p, col, out).Scalar? && !IsBlankz(At(t, p)) && At(t, p) != QUOTE
    requires At(t, p) == BACKSLASH ==> !IsBreak(At(t, p + 1))
    ensures OkPart(x) && !x.Gap? && !x.Joined? && Has(t, p, PartText(x)) && p + |PartText(x)| <= |t|
  {
    hide Between, AllHex, HexValue, IsHex, Unescape, Has;
    var c := At(t, p);
    HasOne(t, p, c);
    if c != BACKSLASH {
      x := Plain(c);
      HasInside(t, p, [c]);
    } else {
      var l := At(t, p + 1);
      assert !Unescape(l).Unknown?;
      EscapeKnown(l);
      assert l != 0 by { ZeroUnknown(); }
      HasOne(t, p + 1, l);
      HasJoin(t, p, [c], [l]);
      assert [c] + [l] == [BACKSLASH, l];
      HasInside(t, p, [BACKSLASH, l]);
      if Unescape(l).Single? {
        x := Short(l as char);
      } else {
        var ds := DigitsFound(t, p + 2, Unescape(l).digits);
        x := Code(l as char, ds);
        HasJoin(t, p, [BACKSLASH, l], DigitsText(ds));
        HasInside(t, p, [BACKSLASH, l] + DigitsText(ds));
      }
    }
  }

  lemma {:induction false} ZeroUnknown()
    ensures Unescape(0).Unknown?
  {
  }

  lemma {:induction false} HasInside(t: seq<nat>, p: nat, x: seq<nat>)
    requires Has(t, p, x)
    ensures p + |x| <= |t|
  {
  }

  /** What the checks at the top of the loop passed. */
  lemma {:induction false} Passed(t: seq<nat>, p: nat, col: nat, out: seq<nat>)
    requires Outer(t, p, col, out).Scalar?
    ensures Outer(t, p, col, out) == Inner(t, p, col, out) && (col == 0 ==> !Indicator(t, p)) && p < |t|
  {
    hide Inner, Indicator;
  }

  lemma {:induction false} GapFound(t: seq<nat>, p: nat, col: nat, out: seq<nat>) returns (x: Part)
    requires Inner(t, p, col, out).Scalar? && IsBlankz(At(t, p))
    ensures OkPart(x) && x.Gap? && Has(t, p, PartText(x)) && PartText(x) != []
    ensures var q, c := p + |PartText(x)|, After(x.ws, col);
            && Black(At(t, q)) && (EndsLine(x) ==> !Indicator(t, q)) && q < |t|
            && Inner(t, q, c, out + PartValue(x)) == Inner(t, p, col, out)
  {
    hide Has, Outer, Inner, Indicator, GapValue, Join;
    ToBetween(t, p, col, out);
    NotAtZero(t, p, col, out);
    var ws := RunFound(t, p);
    x := Gap(ws);
    RunHead(t, p, ws);
    assert PartText(x) == WhiteChars(ws[0]) + RunText(ws[1..]);
    RunRead(t, p, col, out, None, ws);
    RunMeans(ws);
    AfterZero(ws, col);
    Passed(t, p + |RunText(ws)|, After(ws, col), out + GapValue(ws));
  }

  lemma {:induction false} NotAtZero(t: seq<nat>, p: nat, col: nat, out: seq<nat>)
    requires Between(t, p, col, out, None).Scalar? && IsBlankz(At(t, p))
    ensures !Black(At(t, p)) && p < |t|
  {
    hide Inner, Indicator;
    if At(t, p) == 0 {
      assert Outer(t, p, col, out + Join(None)).Failed?;
    }
  }

  lemma {:induction false} JoinedFound(t: seq<nat>, p: nat, col: nat, out: seq<nat>) returns (x: Part)
    requires Inner(t, p, col, out).Scalar? && At(t, p) == BACKSLASH && IsBreak(At(t, p + 1))
    ensures OkPart(x) && x.Joined? && Has(t, p, PartText(x)) && PartText(x) != []
    ensures var q, c := p + |PartText(x)|, After(x.ws, 0);
            && Black(At(t, q)) && (EndsLine(x) ==> !Indicator(t, q)) && q < |t|
            && Inner(t, q, c, out + PartValue(x)) == Inner(t, p, col, out)
  {
    hide Has, Outer, Inner, Indicator, Join, Black, BreakChars, Between, RunText, Breaks, After, EndsLine, Apart;
    var b := BreakFound(t, p, col, out);
    var r := p + 1 + |BreakChars(b)|;
    HasInside(t, p, [BACKSLASH] + BreakChars(b));
    var ws := RunFound(t, r);
    x := Joined(b, ws);
    if ws != [] {
      RunHead(t, r, ws);
    }
    AfterJoined(b, ws);
    FrontApart(Line(b), ws);
    HasJoin(t, p, [BACKSLASH] + BreakChars(b), RunText(ws));
    RunRead(t, r, 0, out, AfterEscapedBreak, ws);
    RunMeans(ws);
    Passed(t, r + |RunText(ws)|, After(ws, 0), out + Breaks(ws));
  }

  lemma {:induction false} BreakFound(t: seq<nat>, p: nat, col: nat, out: seq<nat>) returns (b: Break)
    requires Inner(t, p, col, out).Scalar? && At(t, p) == BACKSLASH && IsBreak(At(t, p + 1))
    ensures Has(t, p, [BACKSLASH] + BreakChars(b)) && (b == Cr ==> At(t, p + 1 + |BreakChars(b)|) != LF)
    ensures Inner(t, p, col, out) == Between(t, p + 1 + |BreakChars(b)|, 0, out, AfterEscapedBreak)
  {
    hide Has, Outer, Indicator, Between;
    HasOne(t, p, BACKSLASH);
    var w := WhiteAt(t, p + 1);
    b := w.b;
    HasJoin(t, p, [BACKSLASH], WhiteChars(w));
  }

  lemma {:induction false} PartsFound(t: seq<nat>, p: nat, col: nat, out: seq<nat>) returns (xs: seq<Part>)
    requires Inner(t, p, col, out).Scalar? && p <= |t|
    ensures WellFormed(xs) && Ahead(t, p, xs)
    ensures Inner(t, p, col, out) == Scalar(out + Value(xs), p + |Text(xs)| + 1)
    decreases |t| - p
  {
    hide Has, Inner, Ahead, Indicator, OkPart, PartText, PartValue, Fits, EndsLine, Marks;
    var c := At(t, p);
    xs := [];
    if c == QUOTE {
      HasOne(t, p, QUOTE);
      assert Text(xs) + [QUOTE] == [QUOTE];
      assert Ahead(t, p, xs) by { AheadIs(t, p, xs); }
    } else {
      var x, col1 := Plain(c), col;
      if IsBlankz(c) {
        x := GapFound(t, p, col, out);
        col1 := After(x.ws, col);
      } else if c == BACKSLASH && IsBreak(At(t, p + 1)) {
        x := JoinedFound(t, p, col, out);
        col1 := After(x.ws, 0);
      } else {
        x := WordFound(t, p, col, out);
        WordRead(t, p, col, out, x);
        PartHead(t, p, x);
        NoLineEnd(x);
        col1 := col + |PartText(x)|;
      }
      var q := p + |PartText(x)|;
      var rest := PartsFound(t, q, col1, out + PartValue(x));
      MarksRead(t, q, rest);
      AheadHead(t, q, rest);
      FrontFits(x, rest);
      FrontAhead(t, p, x, rest);
      xs := [x] + rest;
      assert out + Value(xs) == out + PartValue(x) + Value(rest);
    }
    PartsRead(t, p, col, out, xs);
  }

  lemma {:induction false} NoLineEnd(x: Part)
    requires !x.Gap? && !x.Joined?
    ensures !EndsLine(x)
  {
  }

  lemma {:induction false} AheadIs(t: seq<nat>, p: nat, xs: seq<Part>)
    requires OkParts(xs) && Has(t, p, Text(xs) + [QUOTE])
    ensures Ahead(t, p, xs)
  {
  }

  // ----- the theorem -----

  /** Whatever parts spell is read. */
  lemma {:induction false} IsRead(t: seq<nat>, p: nat, col: nat, xs: seq<Part>, n: nat, v: seq<nat>)
    requires Spells(t, p, xs, n, v)
    ensures Scan(t, p, col) == Scalar(v, p + n)
  {
    hide Spells, Inner, Outer, OkPart, Fits, Ahead, Text, Value;
    Pieces(t, p, xs, n, v);
    Passes(t, p + 1, col + 1, [], xs);
    PartsRead(t, p + 1, col + 1, [], xs);
  }

  /** Whatever is read is spelt by some parts. */
  lemma {:induction false} IsSpelt(t: seq<nat>, p: nat, col: nat) returns (xs: seq<Part>)
    requires At(t, p) == QUOTE && Scan(t, p, col).Scalar?
    ensures var r := Scan(t, p, col); p < r.end && Spells(t, p, xs, r.end - p, r.value)
  {
    hide Spells, Inner, Outer, WellFormed, Ahead, Text, Value;
    var r := Scan(t, p, col);
    Passed(t, p + 1, col + 1, []);
    xs := PartsFound(t, p + 1, col + 1, []);
    Together(t, p, xs, r.end - p, r.value);
  }

  /** The scanner returns a value and a position exactly if the text up to there is a quoted scalar
      that denotes the value. */
  lemma {:induction false} ReadsExactly(t: seq<nat>, p: nat, col: nat, n: nat, v: seq<nat>)
    requires At(t, p) == QUOTE
    ensures Scan(t, p, col) == Scalar(v, p + n) <==> Denotes(t, p, n, v)
  {
    hide Spells, Scan;
    if Scan(t, p, col) == Scalar(v, p + n) {
      var xs := IsSpelt(t, p, col);
    }
    if Denotes(t, p, n, v) {
      var xs :| Spells(t, p, xs, n, v);
      IsRead(t, p, col, xs, n, v);
    }
  }

  lemma {:induction false} Together(t: seq<nat>, p: nat, xs: seq<Part>, n: nat, v: seq<nat>)
    requires At(t, p) == QUOTE && WellFormed(xs) && Ahead(t, p + 1, xs)
    requires v == [] + Value(xs) && p + n == p + 1 + |Text(xs)| + 1
    ensures Spells(t, p, xs, n, v)
  {
    hide Has, OkPart, PartText, PartValue, Fits;
    HasOne(t, p, QUOTE);
    HasJoin(t, p, [QUOTE], Text(xs) + [QUOTE]);
    assert [QUOTE] + (Text(xs) + [QUOTE]) == [QUOTE] + Text(xs) + [QUOTE];
    assert [] + Value(xs) == Value(xs);
  }

  lemma {:induction false} Pieces(t: seq<nat>, p: nat, xs: seq<Part>, n: nat, v: seq<nat>)
    requires Spells(t, p, xs, n, v)
    ensures WellFormed(xs) && Ahead(t, p + 1, xs) && n == |Text(xs)| + 2 && v == [] + Value(xs)
  {
    hide Has, OkPart, PartText, PartValue, Fits;
    assert [QUOTE] + Text(xs) + [QUOTE] == [QUOTE] + (Text(xs) + [QUOTE]);
    HasParts(t, p, [QUOTE], Text(xs) + [QUOTE]);
  }

  /** The letters the emitter writes are those of the table, for every character that has one but
      the space and the single quote. */
  lemma {:induction false} LettersKnown(c: nat)
    ensures Letter(c) != 0 ==> Letter(c) < 0x80 && Letter(c) as char in SHORT_ESCAPES && SHORT_ESCAPES[Letter(c) as char] == c
    ensures Letter(c) == 0 ==> forall l :: l in SHORT_ESCAPES && l != ' ' && l != '\'' ==> SHORT_ESCAPES[l] != c
  {
  }

  /** Of k line feeds with any blanks between them all but one are kept; a single one is a space. */
  lemma {:induction false} BlankLines(ws: seq<White>)
    requires forall i :: 0 <= i < |ws| && ws[i].Line? ==> Kept(ws[i].b) == LF
    requires exists i :: 0 <= i < |ws| && ws[i].Line?
    ensures var k := |Breaks(ws)|;
            k >= 1 && GapValue(ws) == (if k == 1 then [SPACE] else seq(k - 1, _ => LF))
  {
    AllFeeds(ws);
  }

  lemma {:induction false} AllFeeds(ws: seq<White>)
    requires forall i :: 0 <= i < |ws| && ws[i].Line? ==> Kept(ws[i].b) == LF
    ensures Breaks(ws) == seq(|Breaks(ws)|, _ => LF)
    ensures (exists i :: 0 <= i < |ws| && ws[i].Line?) ==> Breaks(ws) != []
    decreases |ws|
  {
    if ws != [] {
      AllFeeds(ws[1..]);
      assert forall i :: 1 <= i < |ws| ==> ws[i] == ws[1..][i - 1];
    }
  }
}
