/**
 * A quoted scalar on its way through octets: printed, encoded, decoded by the reader and scanned.
 */
module YamlStream {
  import opened Bytes
  import opened YamlChars
  import opened YamlQuoted
  import opened YamlRoundTrip
  import opened YamlOctets
  import opened YamlReader
  import opened YamlWriter

  /** What the emitter writes: line breaks and printable characters, ASCII unless unicode is set. */
  predicate Plain(s: Style, c: nat) {
    (c == LF || c == CR || (IsPrintable(c) && c != BOM)) && (!s.unicode ==> c <= 0x7F)
  }

  predicate AllPlain(s: Style, t: seq<nat>) {
    forall i :: 0 <= i < |t| ==> Plain(s, t[i])
  }

  lemma {:induction false} DigitsPlain(s: Style, c: nat, n: nat)
    ensures AllPlain(s, Digits(c, n))
    decreases n
  {
    if n > 0 {
      DigitsPlain(s, c / 16, n - 1);
      assert Plain(s, HexDigit(c % 16));
    }
  }

  lemma {:induction false} EscapePlain(s: Style, c: nat)
    ensures AllPlain(s, Escape(c))
  {
    hide Digits;
    DigitsPlain(s, c, 2);
    DigitsPlain(s, c, 4);
    DigitsPlain(s, c, 8);
  }

  lemma {:induction false} PiecePlain(s: Style, v: seq<nat>, i: nat, col: int, spaces: bool)
    requires i < |v|
    ensures AllPlain(s, Piece(s, v, i, col, spaces))
  {
    hide Escape;
    EscapePlain(s, v[i]);
  }

  lemma {:induction false} BodyPlain(s: Style, v: seq<nat>, i: nat, col: int, spaces: bool)
    requires i <= |v|
    ensures AllPlain(s, Body(s, v, i, col, spaces))
    decreases |v| - i
  {
    hide Piece, Column, Plain;
    if i < |v| {
      PiecePlain(s, v, i, col, spaces);
      BodyPlain(s, v, i + 1, Column(s, v, i, col, spaces), v[i] == SPACE);
    }
  }

  function QuotedText(s: Style, v: seq<nat>, ec: int): seq<nat> {
    [QUOTE] + Body(s, v, 0, ec, false) + [QUOTE]
  }

  lemma {:induction false} TextPlain(s: Style, v: seq<nat>, ec: int)
    ensures AllPlain(s, QuotedText(s, v, ec))
  {
    hide Body;
    BodyPlain(s, v, 0, ec, false);
  }

  /** All of it is allowed in a stream, and none of it is lost in UTF-16. */
  lemma {:induction false} PlainSurvives(s: Style, t: seq<nat>) returns (x: seq<scalar>)
    requires AllPlain(s, t)
    ensures x == t && AllAllowed(x) && AllSurvive(x) && (t != [] ==> t[0] != BOM)
  {
    assert forall i :: 0 <= i < |t| ==> Plain(s, t[i]);
    assert forall i :: 0 <= i < |t| ==> IsScalar(t[i]);
    x := t;
  }

  /** The octets of a text in UTF-8, or in UTF-16 after the mark. */
  function OctetsOf(e: Encoding, x: seq<scalar>): seq<byte> {
    match e
    case Utf8Encoding => AllUtf8(x)
    case Utf16Encoding(big) => AllWritten(big, [BOM] + x)
  }

  /** Whatever the settings and the encoding of the output: a checked value printed in quotes, written
      as octets, read and scanned gives the value if and only if it consists of characters. The
      characters that UTF-16 output loses are always written as escape sequences. */
  lemma {:induction false} ThroughOctets(s: Style, v: seq<nat>, ec: int, col: nat, e: Encoding)
    returns (x: seq<scalar>)
    requires Usable(s) && AllCodes(v)
    ensures x == QuotedText(s, v, ec) && Whole(None, OctetsOf(e, x)) == Outcome(x, None)
    ensures Scan(x, 0, col) == if AllScalars(v) then Scalar(v, |x|) else Failed(BadCode)
  {
    hide Body, AllPlain, AllAllowed, AllSurvive, Whole, Scan, Has;
    var t := QuotedText(s, v, ec);
    TextPlain(s, v, ec);
    x := PlainSurvives(s, t);
    match e {
      case Utf8Encoding => PassedOn(x);
      case Utf16Encoding(big) => WriteThenRead(big, x);
    }
    InItself(t);
    QuotedRoundTrip(s, v, t, 0, col, ec);
  }

  lemma {:induction false} InItself(t: seq<nat>)
    ensures Has(t, 0, t)
  {
    assert t[0..|t|] == t;
  }
}
