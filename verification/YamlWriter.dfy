/**
 * The writer (writer.c) recodes the emitter's UTF-8 to UTF-16. What it writes is read back exactly if
 * the characters above U+FFFF are of a certain kind: only two bits of the octet that holds the higher
 * half of the low surrogate are to be set, but all eight are.
 */
module YamlWriter {
  import opened Bytes
  import opened YamlChars
  import opened YamlOctets
  import opened YamlReader

  // ----- what is written -----

  /** The second unit of the pair for c; the sum is cut to eight bits when it is stored. */
  function SecondUnit(c: scalar): unit
    requires c > 0xFFFF
  {
    var value := c - 0x1_0000;
    (0xDC + value / 0x100 % 0x100) % 0x100 * 0x100 + value % 0x100
  }

  function Written(big: bool, c: scalar): (s: seq<byte>)
    ensures |s| == 2 || |s| == 4
  {
    if c <= 0xFFFF then UnitOctets(big, c) else UnitOctets(big, HighOf(c)) + UnitOctets(big, SecondUnit(c))
  }

  function AllWritten(big: bool, v: seq<scalar>): seq<byte> {
    if v == [] then [] else Written(big, v[0]) + AllWritten(big, v[1..])
  }

  /** The octets put for a unit. */
  method PutUnit(big: bool, high: byte, low: byte) returns (s: seq<byte>)
    ensures s == if big then [high, low] else [low, high]
  {
    s := if big then [high, low] else [low, high];
  }

  /** The UTF-8 character at the pointer, and its width. */
  method DecodeCharacter(buffer: seq<byte>, pointer: nat, ghost c: code) returns (value: nat, width: nat)
    requires pointer < |buffer| && Utf8(c) <= buffer[pointer..]
    ensures value == c && width == |Utf8(c)|
  {
    hide Utf8, LeadBits, LowBits, Width, Shortest, IsTrail;
    ghost var s := Utf8(c);
    FirstWidth(c, buffer[pointer..]);
    WrittenPasses(c);
    width, value := Width(buffer[pointer]), LeadBits(buffer[pointer]);
    var k := 1;
    assert s[..1] == [buffer[pointer]];
    while k < width
      invariant 1 <= k <= width && value == Value(s[..k])
    {
      assert buffer[pointer + k] == s[k] && s[..k + 1][..k] == s[..k];
      value := value * 0x40 + LowBits(buffer[pointer + k]);
      k := k + 1;
    }
    assert s[..width] == s;
  }

  /** Recodes a buffer of whole characters. */
  method Recode(big: bool, buffer: seq<byte>, ghost v: seq<scalar>) returns (raw: seq<byte>)
    requires buffer == AllUtf8(v)
    ensures raw == AllWritten(big, v) && |raw| <= 2 * |buffer|
  {
    hide Utf8, Written;
    var pointer := 0;
    ghost var n := 0;
    raw := [];
    while pointer < |buffer|
      invariant 0 <= pointer <= |buffer| && 0 <= n <= |v| && buffer[pointer..] == AllUtf8(v[n..])
      invariant AllWritten(big, v) == raw + AllWritten(big, v[n..]) && |raw| <= 2 * pointer
    {
      ghost var c, s := v[n], Utf8(v[n]);
      assert s <= buffer[pointer..];
      var value, width := DecodeCharacter(buffer, pointer, c);
      var x := WriteUnits(big, value, c);
      AtMostTwice(big, c);
      assert v[n..][1..] == v[n + 1..] && buffer[pointer..][width..] == buffer[pointer + width..];
      assert raw + (x + AllWritten(big, v[n + 1..])) == raw + x + AllWritten(big, v[n + 1..]);
      pointer, raw, n := pointer + width, raw + x, n + 1;
    }
    assert raw + [] == raw;
  }

  method WriteUnits(big: bool, value: nat, ghost c: scalar) returns (s: seq<byte>)
    requires value == c
    ensures s == Written(big, c)
  {
    hide HighOf;
    if value < 0x1_0000 {
      s := PutUnit(big, value / 0x100, value % 0x100);
    } else {
      var u := value - 0x1_0000;
      HighOctets(c);
      var first := PutUnit(big, 0xD8 + u / 0x4_0000, u / 0x400 % 0x100);
      var second := PutUnit(big, (0xDC + u / 0x100 % 0x100) % 0x100, u % 0x100);
      s := first + second;
    }
  }

  lemma {:induction false} HighOctets(c: scalar)
    requires c > 0xFFFF
    ensures var u := c - 0x1_0000;
            HighOf(c) / 0x100 == 0xD8 + u / 0x4_0000 && HighOf(c) % 0x100 == u / 0x400 % 0x100
  {
  }

  lemma {:induction false} AtMostTwice(big: bool, c: scalar)
    ensures |Written(big, c)| <= 2 * |Utf8(c)|
  {
  }

  // ----- what is read back -----

  /** The characters that survive: those below U+10000, and in every plane above the first 1024. */
  predicate Survives(c: scalar) {
    c % 0x1_0000 < 0x400 || c <= 0xFFFF
  }

  predicate AllSurvive(v: seq<scalar>) {
    forall i :: 0 <= i < |v| ==> Survives(v[i])
  }

  lemma {:induction false} SecondIsLow(c: scalar)
    requires c > 0xFFFF
    ensures Survives(c) ==> SecondUnit(c) == LowOf(c)
    ensures !Survives(c) ==> !Low(SecondUnit(c))
  {
    hide Low, LowOf, Survives, SecondUnit;
    var value := c - 0x1_0000;
    var q, x, l := value / 0x1_0000, value / 0x100 % 0x100, value % 0x100;
    ThreeParts(value);
    SecondOf(c, q, x, l);
    SecondOctets(x, l);
  }

  lemma {:induction false} ThreeParts(value: nat)
    ensures value == value / 0x1_0000 * 0x1_0000 + value / 0x100 % 0x100 * 0x100 + value % 0x100
  {
  }

  lemma {:induction false} SecondOf(c: scalar, q: nat, x: nat, l: nat)
    requires c > 0xFFFF && x == (c - 0x1_0000) / 0x100 % 0x100 && l == (c - 0x1_0000) % 0x100
    requires c - 0x1_0000 == q * 0x1_0000 + x * 0x100 + l
    ensures SecondUnit(c) == (0xDC + x) % 0x100 * 0x100 + l
    ensures Survives(c) <==> x < 4
    ensures x < 4 ==> LowOf(c) == 0xDC00 + x * 0x100 + l
  {
    Planes(q, x, l);
  }

  lemma {:induction false} Planes(q: nat, x: nat, l: nat)
    requires x < 0x100 && l < 0x100
    ensures var v := q * 0x1_0000 + x * 0x100 + l;
            (v + 0x1_0000) % 0x1_0000 == x * 0x100 + l && (x < 4 ==> v % 0x400 == x * 0x100 + l)
  {
    var v := q * 0x1_0000 + x * 0x100 + l;
    DivUnique(v + 0x1_0000, 0x1_0000, q + 1, x * 0x100 + l);
    if x < 4 {
      DivUnique(v, 0x400, q * 0x40, x * 0x100 + l);
    }
  }

  lemma {:induction false} SecondOctets(x: nat, l: nat)
    requires x < 0x100 && l < 0x100
    ensures var u: unit := (0xDC + x) % 0x100 * 0x100 + l;
            (x < 4 ==> u == 0xDC00 + x * 0x100 + l) && (x >= 4 ==> !Low(u))
  {
  }

  lemma {:induction false} SurvivorRead(big: bool, c: scalar)
    requires Survives(c)
    ensures Written(big, c) == Octets(Utf16Encoding(big), c)
  {
    if c > 0xFFFF { SecondIsLow(c); }
  }

  lemma {:induction false} OtherRefused(big: bool, c: scalar, raw: seq<byte>)
    requires !Survives(c) && Written(big, c) <= raw
    ensures ReadOne(Utf16Encoding(big), raw) == Bad(ExpectedLow)
  {
    hide HighOf, LowOf, SecondUnit, High, Low;
    SecondIsLow(c);
    SurrogatesOf(c);
    assert raw[0] == Written(big, c)[0] && raw[1] == Written(big, c)[1];
    assert raw[2] == Written(big, c)[2] && raw[3] == Written(big, c)[3];
    UnitBack(big, HighOf(c), raw, 0);
    UnitBack(big, SecondUnit(c), raw, 2);
    HighNotLow(HighOf(c));
  }

  lemma {:induction false} HighNotLow(u: unit)
    ensures !(High(u) && Low(u))
  {
  }

  /** What was written in UTF-16 is read back exactly if all characters survive; otherwise the reader
      gets as far as the first that does not. */
  lemma {:induction false} ReadBack(big: bool, v: seq<scalar>)
    requires AllAllowed(v)
    ensures var r := Decode(Utf16Encoding(big), AllWritten(big, v));
            && (AllSurvive(v) <==> r == Outcome(v, None))
            && (!AllSurvive(v) ==> r.problem == Some(ExpectedLow) && r.chars < v && !Survives(v[|r.chars|]))
    decreases |v|
  {
    hide ReadOne, Allowed, Survives, Written, Octets;
    var e, s := Utf16Encoding(big), AllWritten(big, v);
    if v != [] {
      var w := |Written(big, v[0])|;
      assert s[w..] == AllWritten(big, v[1..]);
      if Survives(v[0]) {
        SurvivorRead(big, v[0]);
        ReadsWritten(e, v[0], s);
        ReadBack(big, v[1..]);
        var r := Decode(e, s[w..]);
        assert v == [v[0]] + v[1..] && ([v[0]] + r.chars)[1..] == r.chars;
      } else {
        OtherRefused(big, v[0], s);
        assert Decode(e, s) == Outcome([], Some(ExpectedLow));
      }
    }
  }

  /** U+1F600 does not survive. */
  lemma {:induction false} FaceLost(big: bool)
    ensures Decode(Utf16Encoding(big), AllWritten(big, [0x1_F600])) == Outcome([], Some(ExpectedLow))
  {
    hide Decode;
    assert !Survives(0x1_F600);
    ReadBack(big, [0x1_F600]);
  }

  // ----- whole streams -----

  /** With the mark the emitter puts first, the reader finds the encoding out by itself. */
  lemma {:induction false} WriteThenRead(big: bool, v: seq<scalar>)
    requires AllAllowed(v)
    ensures Whole(None, AllWritten(big, [BOM] + v)) == Outcome(v, None) <==> AllSurvive(v)
  {
    hide Decode, AllSurvive, AllAllowed;
    var s := AllWritten(big, [BOM] + v);
    assert ([BOM] + v)[1..] == v;
    assert s == Written(big, BOM) + AllWritten(big, v);
    assert s[2..] == AllWritten(big, v);
    assert s[0] == Written(big, BOM)[0] && s[1] == Written(big, BOM)[1];
    assert ByteOrder(s) == (Utf16Encoding(big), 2);
    ReadBack(big, v);
  }

  /** In UTF-8 there is no mark, and everything is read back unless the text itself begins with it. */
  lemma {:induction false} PassedOn(v: seq<scalar>)
    requires AllAllowed(v)
    ensures Whole(None, AllUtf8(v)) == Outcome(v, None) <==> v == [] || v[0] != BOM
  {
    hide Decode, Passes, Says;
    var s := AllUtf8(v);
    SameOctets(v);
    if v != [] {
      hide Utf8;
      assert s == Utf8(v[0]) + AllUtf8(v[1..]);
      MarkOctets(v[0], s);
    }
    if v == [] || v[0] != BOM {
      assert s[0..] == s;
      SaysItself(Utf8Encoding, v);
      Accepts(Utf8Encoding, s, v);
    } else {
      assert s[3..] == AllUtf8(v[1..]);
      SameOctets(v[1..]);
      SaysItself(Utf8Encoding, v[1..]);
      Accepts(Utf8Encoding, s[3..], v[1..]);
      assert |v[1..]| < |v|;
    }
  }

  lemma {:induction false} SaysItself(e: Encoding, v: seq<scalar>)
    requires AllAllowed(v)
    ensures Says(e, AllOctets(e, v), v)
  {
  }

  lemma {:induction false} MarkOctets(c: scalar, s: seq<byte>)
    requires Utf8(c) <= s
    ensures ByteOrder(s) == (Utf8Encoding, if c == BOM then 3 else 0)
    ensures c == BOM ==> |Utf8(c)| == 3
  {
    LeadBelow(c);
    assert s[0] == Utf8(c)[0];
    if c == BOM {
      assert Utf8(c) == [0xEF, 0xBB, 0xBF];
    } else if [0xEF, 0xBB, 0xBF] <= s {
      BeginsWithMark(c, s);
      assert false;
    }
  }

  lemma {:induction false} LeadBelow(c: scalar)
    ensures Utf8(c)[0] < 0xF8
  {
  }

  lemma {:induction false} BeginsWithMark(c: scalar, s: seq<byte>)
    requires Utf8(c) <= s && |s| >= 3 && s[0] == 0xEF && s[1] == 0xBB && s[2] == 0xBF
    ensures c == BOM
  {
    hide Passes, PrintableOctets, BreakOctets;
    FirstWidth(c, s);
    SameTests(c);
    assert Utf8(c)[0] == s[0];
    assert Utf8(c)[1] == s[1] && Utf8(c)[2] == s[2];
  }
}
