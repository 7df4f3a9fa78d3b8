/**
 * Characters as octets: UTF-8 as the library writes it and UTF-16, with the tests the library makes
 * on octets (yaml_private.h) and the decoding of a single character as the reader does it (reader.c).
 */
module YamlOctets {
  import opened Bytes
  import opened YamlChars

  type code = c: int | 0 <= c < CODE_LIMIT

  type scalar = c: code | IsScalar(c)

  // ----- UTF-8 -----

  function Utf8(c: code): (s: seq<byte>)
    ensures 1 <= |s| <= 4
  {
    if c <= 0x7F then [c]
    else if c <= 0x7FF then [0xC0 + c / 0x40, 0x80 + c % 0x40]
    else if c <= 0xFFFF then [0xE0 + c / 0x1000, 0x80 + c / 0x40 % 0x40, 0x80 + c % 0x40]
    else [0xF0 + c / 0x4_0000, 0x80 + c / 0x1000 % 0x40, 0x80 + c / 0x40 % 0x40, 0x80 + c % 0x40]
  }

  function AllUtf8(v: seq<code>): seq<byte> {
    if v == [] then [] else Utf8(v[0]) + AllUtf8(v[1..])
  }

  /** How many octets the character has that begins with o; 0 if none does. */
  function Width(o: byte): nat {
    if o < 0x80 then 1
    else if 0xC0 <= o < 0xE0 then 2
    else if 0xE0 <= o < 0xF0 then 3
    else if 0xF0 <= o < 0xF8 then 4
    else 0
  }

  /** The bits of the value that a leading octet holds. */
  function LeadBits(o: byte): nat {
    if o < 0x80 then o
    else if 0xC0 <= o < 0xE0 then o % 0x20
    else if 0xE0 <= o < 0xF0 then o % 0x10
    else if 0xF0 <= o < 0xF8 then o % 8
    else 0
  }

  function LowBits(o: byte): nat {
    o % 0x40
  }

  function Value(s: seq<byte>): nat
    requires s != []
  {
    if |s| == 1 then LeadBits(s[0]) else Value(s[..|s| - 1]) * 0x40 + LowBits(s[|s| - 1])
  }

  predicate IsTrail(o: byte) {
    0x80 <= o < 0xC0
  }

  predicate AllTrail(s: seq<byte>) {
    forall i :: 0 < i < |s| ==> IsTrail(s[i])
  }

  /** The value needs as many octets as it has. */
  predicate Shortest(width: nat, value: nat) {
    width == 1 || (width == 2 && value >= 0x80) || (width == 3 && value >= 0x800) || (width == 4 && value >= 0x1_0000)
  }

  lemma {:induction false} Values(s: seq<byte>)
    requires 1 <= |s| <= 4
    ensures |s| == 1 ==> Value(s) == LeadBits(s[0])
    ensures |s| == 2 ==> Value(s) == LeadBits(s[0]) * 0x40 + LowBits(s[1])
    ensures |s| == 3 ==> Value(s) == LeadBits(s[0]) * 0x1000 + LowBits(s[1]) * 0x40 + LowBits(s[2])
    ensures |s| == 4 ==>
              Value(s) == LeadBits(s[0]) * 0x4_0000 + LowBits(s[1]) * 0x1000 + LowBits(s[2]) * 0x40 + LowBits(s[3])
  {
    hide LeadBits, LowBits;
    if |s| > 1 {
      assert s[..|s| - 1][0] == s[0];
      Values(s[..|s| - 1]);
    }
  }

  /** Octets that pass the checks for a character. */
  predicate Passes(s: seq<byte>) {
    s != [] && Width(s[0]) == |s| && AllTrail(s) && Shortest(|s|, Value(s))
  }

  /** An octet is its kind and its bits. */
  lemma {:induction false} Kinds(o: byte)
    ensures IsTrail(o) ==> o == 0x80 + LowBits(o)
    ensures Width(o) == 1 ==> o == LeadBits(o)
    ensures Width(o) == 2 ==> o == 0xC0 + LeadBits(o) && LeadBits(o) < 0x20
    ensures Width(o) == 3 ==> o == 0xE0 + LeadBits(o) && LeadBits(o) < 0x10
    ensures Width(o) == 4 ==> o == 0xF0 + LeadBits(o) && LeadBits(o) < 8
    ensures LowBits(o) < 0x40
  {
  }

  lemma {:induction false} TrailOf(b: nat)
    requires b < 0x40
    ensures IsTrail(0x80 + b) && LowBits(0x80 + b) == b
  {
  }

  lemma {:induction false} LeadOf(c: code)
    ensures var s := Utf8(c); Width(s[0]) == |s| && Shortest(|s|, c)
    ensures c > 0x7F && c <= 0x7FF ==> LeadBits(Utf8(c)[0]) == c / 0x40
    ensures c > 0x7FF && c <= 0xFFFF ==> LeadBits(Utf8(c)[0]) == c / 0x1000
    ensures c > 0xFFFF ==> LeadBits(Utf8(c)[0]) == c / 0x4_0000
  {
  }

  /** What is written passes, with the same value. */
  lemma {:induction false} WrittenPasses(c: code)
    ensures Passes(Utf8(c)) && Value(Utf8(c)) == c
  {
    hide Value, LeadBits, LowBits, Width, Shortest, IsTrail;
    LeadOf(c);
    Values(Utf8(c));
    TrailOf(c % 0x40);
    TrailOf(c / 0x40 % 0x40);
    TrailOf(c / 0x1000 % 0x40);
    Parts(c);
    if c <= 0x7F {
      Ascii(c);
    }
  }

  lemma {:induction false} Ascii(c: byte)
    requires c <= 0x7F
    ensures LeadBits(c) == c
  {
  }

  lemma {:induction false} Parts(c: nat)
    ensures c / 0x40 * 0x40 + c % 0x40 == c
    ensures c / 0x1000 * 0x40 + c / 0x40 % 0x40 == c / 0x40
    ensures c / 0x4_0000 * 0x40 + c / 0x1000 % 0x40 == c / 0x1000
  {
  }

  /** What passes is what is written for its value. */
  lemma {:induction false} PassesWritten(s: seq<byte>)
    requires Passes(s)
    ensures 0 <= Value(s) < CODE_LIMIT && Utf8(Value(s)) == s
  {
    hide Value, LeadBits, LowBits, Width, IsTrail;
    AtMost4(s[0]);
    Values(s);
    Kinds(s[0]);
    if |s| == 2 {
      Kinds(s[1]);
      Two(LeadBits(s[0]), LowBits(s[1]));
    } else if |s| == 3 {
      Kinds(s[1]);
      Kinds(s[2]);
      Three(LeadBits(s[0]), LowBits(s[1]), LowBits(s[2]));
    } else if |s| == 4 {
      Kinds(s[1]);
      Kinds(s[2]);
      Kinds(s[3]);
      Four(LeadBits(s[0]), LowBits(s[1]), LowBits(s[2]), LowBits(s[3]));
    }
  }

  lemma {:induction false} AtMost4(o: byte)
    ensures Width(o) <= 4 && (Width(o) == 1 ==> LeadBits(o) < 0x80)
  {
  }

  lemma {:induction false} Two(a: nat, b: nat)
    requires b < 0x40
    ensures var x := a * 0x40 + b; x / 0x40 == a && x % 0x40 == b
  {
  }

  lemma {:induction false} Three(a: nat, b: nat, c: nat)
    requires b < 0x40 && c < 0x40
    ensures var x := a * 0x1000 + b * 0x40 + c; x / 0x1000 == a && x / 0x40 % 0x40 == b && x % 0x40 == c
  {
    Two(a * 0x40 + b, c);
    Two(a, b);
  }

  lemma {:induction false} Four(a: nat, b: nat, c: nat, d: nat)
    requires b < 0x40 && c < 0x40 && d < 0x40
    ensures var x := a * 0x4_0000 + b * 0x1000 + c * 0x40 + d;
            x / 0x4_0000 == a && x / 0x1000 % 0x40 == b && x / 0x40 % 0x40 == c && x % 0x40 == d
  {
    Two(a * 0x1000 + b * 0x40 + c, d);
    Three(a, b, c);
  }

  // ----- tests on octets -----

  predicate PrintableOctets(s: seq<byte>)
    requires Passes(s)
  {
    || s[0] == 0x0A
    || 0x20 <= s[0] <= 0x7E
    || (s[0] == 0xC2 && s[1] >= 0xA0)
    || (s[0] > 0xC2 && s[0] < 0xED)
    || (s[0] == 0xED && s[1] < 0xA0)
    || s[0] == 0xEE
    || (s[0] == 0xEF && !(s[1] == 0xBB && s[2] == 0xBF) && !(s[1] == 0xBF && (s[2] == 0xBE || s[2] == 0xBF)))
  }

  predicate BreakOctets(s: seq<byte>)
    requires Passes(s)
  {
    || s[0] == 0x0D
    || s[0] == 0x0A
    || (s[0] == 0xC2 && s[1] == 0x85)
    || (s[0] == 0xE2 && s[1] == 0x80 && s[2] == 0xA8)
    || (s[0] == 0xE2 && s[1] == 0x80 && s[2] == 0xA9)
  }

  predicate BomOctets(s: seq<byte>)
    requires Passes(s)
  {
    s[0] == 0xEF && s[1] == 0xBB && s[2] == 0xBF
  }

  lemma {:induction false} SamePrintable(c: code)
    requires Passes(Utf8(c))
    ensures PrintableOctets(Utf8(c)) <==> IsPrintable(c)
  {
    hide Passes;
  }

  lemma {:induction false} SameBreaks(c: code)
    requires Passes(Utf8(c))
    ensures BreakOctets(Utf8(c)) <==> IsBreak(c)
    ensures BomOctets(Utf8(c)) <==> c == BOM
  {
    hide Passes;
  }

  /** The tests of the library say the same of the octets as those on characters. */
  lemma {:induction false} SameTests(c: code)
    ensures Passes(Utf8(c))
    ensures PrintableOctets(Utf8(c)) <==> IsPrintable(c)
    ensures BreakOctets(Utf8(c)) <==> IsBreak(c)
    ensures BomOctets(Utf8(c)) <==> c == BOM
    ensures Utf8(c)[0] < 0x80 <==> c <= 0x7F
  {
    hide Passes, PrintableOctets, BreakOctets, BomOctets, IsPrintable, IsBreak;
    WrittenPasses(c);
    SamePrintable(c);
    SameBreaks(c);
  }

  // ----- the test of the library (api.c) -----

  /** From the front, every character passes. */
  predicate AllPass(s: seq<byte>)
    decreases |s|
  {
    s == [] || (0 < Width(s[0]) <= |s| && Passes(s[..Width(s[0])]) && AllPass(s[Width(s[0])..]))
  }

  lemma {:induction false} WrittenAllPass(v: seq<code>)
    ensures AllPass(AllUtf8(v))
  {
    if v != [] {
      hide Utf8, Passes, Width;
      var s := AllUtf8(v);
      FirstWidth(v[0], s);
      assert s[|Utf8(v[0])|..] == AllUtf8(v[1..]);
      WrittenAllPass(v[1..]);
    }
  }

  lemma {:induction false} FirstWidth(c: code, s: seq<byte>)
    requires Utf8(c) <= s
    ensures Width(s[0]) == |Utf8(c)| && s[..Width(s[0])] == Utf8(c) && Passes(s[..Width(s[0])])
  {
    hide Utf8, Value, Width, Shortest, IsTrail;
    WrittenPasses(c);
  }

  lemma {:induction false} AllPassWritten(s: seq<byte>) returns (v: seq<code>)
    requires AllPass(s)
    ensures s == AllUtf8(v)
    decreases |s|
  {
    if s == [] {
      v := [];
    } else {
      hide Utf8, Passes;
      var x := s[..Width(s[0])];
      PassesWritten(x);
      v := AllPassWritten(s[|x|..]);
      assert s == x + s[|x|..];
      v := [Value(x)] + v;
    }
  }

  /** yaml_check_utf8 accepts octets exactly if they are UTF-8 in shortest form of numbers below
      2^21. These need not be characters: surrogates and numbers above 0x10FFFF pass as well. */
  method CheckUtf8(start: seq<byte>) returns (ok: bool)
    ensures ok <==> exists v: seq<code> :: start == AllUtf8(v)
  {
    hide Utf8, AllUtf8, Shortest, LeadBits, LowBits;
    ok := CheckAll(start);
    if ok {
      var v := AllPassWritten(start);
    } else {
      forall v: seq<code>
        ensures start != AllUtf8(v)
      {
        WrittenAllPass(v);
      }
    }
  }

  method CheckAll(start: seq<byte>) returns (ok: bool)
    ensures ok == AllPass(start)
  {
    hide Shortest, LeadBits, LowBits, Width;
    var pointer := 0;
    while pointer < |start|
      invariant 0 <= pointer <= |start| && AllPass(start) == AllPass(start[pointer..])
    {
      var width, value := Width(start[pointer]), LeadBits(start[pointer]);
      if width == 0 || pointer + width > |start| {
        return false;
      }
      ghost var s := start[pointer..][..width];
      assert s[..1] == [start[pointer]];
      var k := 1;
      while k < width
        invariant 1 <= k <= width && AllTrail(s[..k]) && value == Value(s[..k])
      {
        assert start[pointer + k] == s[k];
        if !IsTrail(start[pointer + k]) {
          return false;
        }
        assert s[..k + 1][..k] == s[..k];
        value := value * 0x40 + LowBits(start[pointer + k]);
        k := k + 1;
      }
      assert s[..width] == s;
      if !Shortest(width, value) {
        return false;
      }
      assert start[pointer..][width..] == start[pointer + width..];
      pointer := pointer + width;
    }
    ok := true;
  }

  // ----- UTF-16 -----

  type unit = u: int | 0 <= u < 0x1_0000

  /** The character of a surrogate pair. */
  function Pair(high: unit, low: unit): scalar {
    0x1_0000 + high % 0x400 * 0x400 + low % 0x400
  }

  function UnitOctets(big: bool, u: unit): (s: seq<byte>)
    ensures |s| == 2
  {
    if big then [u / 0x100, u % 0x100] else [u % 0x100, u / 0x100]
  }

  function UnitAt(big: bool, s: seq<byte>, i: nat): unit
    requires i + 1 < |s|
  {
    var high: int, low: int := if big then s[i] else s[i + 1], if big then s[i + 1] else s[i];
    high * 0x100 + low
  }

  predicate High(u: unit) {
    0xD800 <= u < 0xDC00
  }

  predicate Low(u: unit) {
    0xDC00 <= u < 0xE000
  }

  function HighOf(c: scalar): unit
    requires c > 0xFFFF
  {
    0xD800 + (c - 0x1_0000) / 0x400
  }

  function LowOf(c: scalar): unit
    requires c > 0xFFFF
  {
    0xDC00 + (c - 0x1_0000) % 0x400
  }

  function Utf16(big: bool, c: scalar): (s: seq<byte>)
    ensures |s| == 2 || |s| == 4
  {
    if c <= 0xFFFF then UnitOctets(big, c) else UnitOctets(big, HighOf(c)) + UnitOctets(big, LowOf(c))
  }

  // ----- reading a character -----

  datatype Encoding = Utf8Encoding | Utf16Encoding(big: bool)

  function Octets(e: Encoding, c: scalar): (s: seq<byte>)
    ensures 1 <= |s| <= 4
  {
    match e
    case Utf8Encoding => Utf8(c)
    case Utf16Encoding(big) => Utf16(big, c)
  }

  datatype Problem =
    | BadLead | IncompleteCharacter | BadTrail | BadLength | BadCharacter
    | IncompleteUnit | UnexpectedLow | IncompletePair | ExpectedLow
    | ControlCharacter

  /** A character and its width; more octets needed, or a problem if there are none; a problem. */
  datatype Read = Char(c: scalar, width: nat) | More(problem: Problem) | Bad(problem: Problem)

  function ReadUtf8(raw: seq<byte>): (r: Read)
    requires raw != []
    ensures r.Char? ==> 0 < r.width <= |raw|
    ensures r.More? ==> |raw| < 4
  {
    var w := Width(raw[0]);
    if w == 0 then Bad(BadLead)
    else if w > |raw| then More(IncompleteCharacter)
    else if !AllTrail(raw[..w]) then Bad(BadTrail)
    else if !Shortest(w, Value(raw[..w])) then Bad(BadLength)
    else
      var c := Value(raw[..w]);
      if !IsScalar(c) then Bad(BadCharacter) else Char(c, w)
  }

  function ReadUtf16(big: bool, raw: seq<byte>): (r: Read)
    requires raw != []
    ensures r.Char? ==> 0 < r.width <= |raw|
    ensures r.More? ==> |raw| < 4
  {
    if |raw| < 2 then More(IncompleteUnit)
    else
      var u := UnitAt(big, raw, 0);
      if Low(u) then Bad(UnexpectedLow)
      else if !High(u) then Char(u, 2)
      else if |raw| < 4 then More(IncompletePair)
      else if !Low(UnitAt(big, raw, 2)) then Bad(ExpectedLow)
      else Char(Pair(u, UnitAt(big, raw, 2)), 4)
  }

  function ReadOne(e: Encoding, raw: seq<byte>): (r: Read)
    requires raw != []
    ensures r.Char? ==> 0 < r.width <= |raw|
    ensures r.More? ==> |raw| < 4
  {
    match e
    case Utf8Encoding => ReadUtf8(raw)
    case Utf16Encoding(big) => ReadUtf16(big, raw)
  }

  /** Octets that begin with a character are read as it. */
  lemma {:induction false} ReadsWritten(e: Encoding, c: scalar, raw: seq<byte>)
    requires Octets(e, c) <= raw
    ensures ReadOne(e, raw) == Char(c, |Octets(e, c)|)
  {
    var s := Octets(e, c);
    assert raw[..|s|] == s;
    match e {
      case Utf8Encoding => {
        hide Value, Shortest, AllTrail, Utf8;
        WrittenPasses(c);
      }
      case Utf16Encoding(big) => Utf16Reads(big, c, raw);
    }
  }

  lemma {:induction false} Utf16Reads(big: bool, c: scalar, raw: seq<byte>)
    requires Utf16(big, c) <= raw
    ensures ReadUtf16(big, raw) == Char(c, |Utf16(big, c)|)
  {
    UnitRead(big, Utf16(big, c), raw, 0);
    UnitsOf(big, c);
    if c > 0xFFFF {
      UnitRead(big, Utf16(big, c), raw, 2);
    }
  }

  lemma {:induction false} UnitsOf(big: bool, c: scalar)
    ensures var s := Utf16(big, c);
            if c <= 0xFFFF then UnitAt(big, s, 0) == c && !High(c) && !Low(c)
            else
              && UnitAt(big, s, 0) == HighOf(c) && High(HighOf(c))
              && UnitAt(big, s, 2) == LowOf(c) && Low(LowOf(c))
              && Pair(HighOf(c), LowOf(c)) == c
  {
    assert IsScalar(c);
    hide HighOf, LowOf, High, Low, Pair;
    if c <= 0xFFFF {
      UnitBack(big, c, Utf16(big, c), 0);
      NoSurrogate(c);
    } else {
      SurrogatesOf(c);
      UnitBack(big, HighOf(c), Utf16(big, c), 0);
      UnitBack(big, LowOf(c), Utf16(big, c), 2);
    }
  }

  lemma {:induction false} UnitBack(big: bool, u: unit, s: seq<byte>, i: nat)
    requires i + 1 < |s| && s[i] == UnitOctets(big, u)[0] && s[i + 1] == UnitOctets(big, u)[1]
    ensures UnitAt(big, s, i) == u
  {
  }

  lemma {:induction false} NoSurrogate(c: scalar)
    requires c <= 0xFFFF
    ensures !High(c) && !Low(c)
  {
    assert IsScalar(c);
  }

  lemma {:induction false} SurrogatesOf(c: scalar)
    requires c > 0xFFFF
    ensures High(HighOf(c)) && Low(LowOf(c)) && Pair(HighOf(c), LowOf(c)) == c
  {
    assert IsScalar(c);
  }

  lemma {:induction false} UnitRead(big: bool, s: seq<byte>, raw: seq<byte>, i: nat)
    requires s <= raw && i + 1 < |s|
    ensures UnitAt(big, raw, i) == UnitAt(big, s, i)
  {
  }

  /** What is read as a character begins with it. */
  lemma {:induction false} ReadWritten(e: Encoding, raw: seq<byte>)
    requires raw != [] && ReadOne(e, raw).Char?
    ensures var r := ReadOne(e, raw); r.width == |Octets(e, r.c)| && Octets(e, r.c) <= raw
  {
    match e {
      case Utf8Encoding => {
        hide Value, Shortest, AllTrail, Utf8, Width;
        PassesWritten(raw[..Width(raw[0])]);
      }
      case Utf16Encoding(big) => Utf16Written(big, raw);
    }
  }

  lemma {:induction false} Utf16Written(big: bool, raw: seq<byte>)
    requires raw != [] && ReadUtf16(big, raw).Char?
    ensures var r := ReadUtf16(big, raw); r.width == |Utf16(big, r.c)| && Utf16(big, r.c) <= raw
  {
    UnitWritten(big, raw, 0);
    if High(UnitAt(big, raw, 0)) {
      UnitWritten(big, raw, 2);
      PairValue(UnitAt(big, raw, 0), UnitAt(big, raw, 2));
    }
  }

  lemma {:induction false} UnitWritten(big: bool, raw: seq<byte>, i: nat)
    requires i + 1 < |raw|
    ensures UnitOctets(big, UnitAt(big, raw, i)) == raw[i..i + 2]
  {
  }

  lemma {:induction false} PairValue(u: unit, l: unit)
    requires High(u) && Low(l)
    ensures var c := Pair(u, l);
            0xFFFF < c <= 0x10_FFFF && HighOf(c) == u && LowOf(c) == l
  {
  }

  /** More is asked for at the beginning of a character. */
  lemma {:induction false} Waits(e: Encoding, c: scalar, raw: seq<byte>)
    requires raw != [] && raw < Octets(e, c)
    ensures ReadOne(e, raw).More?
  {
    match e {
      case Utf8Encoding => {
        hide Value, Shortest, AllTrail, Utf8;
        WrittenPasses(c);
      }
      case Utf16Encoding(big) => {
        if |raw| >= 2 {
          UnitsOf(big, c);
          UnitRead(big, raw, Utf16(big, c), 0);
        }
      }
    }
  }

  /** What has been decided does not change with what follows. */
  lemma {:induction false} Decided(e: Encoding, raw: seq<byte>, rest: seq<byte>)
    requires raw != [] && !ReadOne(e, raw).More?
    ensures ReadOne(e, raw + rest) == ReadOne(e, raw)
  {
    match e {
      case Utf8Encoding => {
        hide Value, Shortest, AllTrail, Width;
        assert (raw + rest)[0] == raw[0];
        if Width(raw[0]) > 0 {
          assert (raw + rest)[..Width(raw[0])] == raw[..Width(raw[0])];
        }
      }
      case Utf16Encoding(big) => {
      }
    }
  }
}
