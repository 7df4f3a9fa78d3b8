/**
 * The reader (reader.c): it finds out the encoding of the octets that a handler delivers in slices
 * of any size, decodes them and keeps the characters in UTF-8 until they are skipped.
 */
module YamlReader {
  import opened Bytes
  import opened YamlChars
  import opened YamlOctets

  // ----- what a stream says -----

  /** A stream may hold other characters only as escape sequences. */
  predicate Allowed(c: scalar) {
    || c == TAB || c == LF || c == CR || 0x20 <= c <= 0x7E || c == NEL || 0xA0 <= c <= 0xD7FF
    || 0xE000 <= c <= 0xFFFD || 0x1_0000 <= c <= 0x10_FFFF
  }

  predicate AllAllowed(v: seq<scalar>) {
    forall i :: 0 <= i < |v| ==> Allowed(v[i])
  }

  function ReadChar(e: Encoding, raw: seq<byte>): (r: Read)
    requires raw != []
    ensures r.Char? ==> 0 < r.width <= |raw|
    ensures r.More? ==> |raw| < 4
  {
    var r := ReadOne(e, raw);
    if r.Char? && !Allowed(r.c) then Bad(ControlCharacter) else r
  }

  /** Characters, and what is wrong after them, if anything is. */
  datatype Outcome = Outcome(chars: seq<scalar>, problem: Option<Problem>)

  function Decode(e: Encoding, s: seq<byte>): Outcome
    decreases |s|
  {
    if s == [] then Outcome([], None)
    else
      match ReadChar(e, s)
      case Char(c, w) => After([c], Decode(e, s[w..]))
      case More(p) => Outcome([], Some(p))
      case Bad(p) => Outcome([], Some(p))
  }

  function After(v: seq<scalar>, o: Outcome): Outcome {
    Outcome(v + o.chars, o.problem)
  }

  lemma {:induction false} AfterAfter(v: seq<scalar>, w: seq<scalar>, o: Outcome)
    ensures After(v, After(w, o)) == After(v + w, o)
  {
    assert v + (w + o.chars) == v + w + o.chars;
  }

  function AllOctets(e: Encoding, v: seq<scalar>): seq<byte> {
    if v == [] then [] else Octets(e, v[0]) + AllOctets(e, v[1..])
  }

  /** The octets s are the characters v, all of which are allowed. */
  predicate Says(e: Encoding, s: seq<byte>, v: seq<scalar>) {
    AllAllowed(v) && s == AllOctets(e, v)
  }

  /** Octets are accepted exactly if they are the encoding of allowed characters. */
  lemma {:induction false} Accepts(e: Encoding, s: seq<byte>, v: seq<scalar>)
    ensures Decode(e, s) == Outcome(v, None) <==> Says(e, s, v)
  {
    hide Decode, Says;
    if Decode(e, s) == Outcome(v, None) { OnlyTexts(e, s, v); }
    if Says(e, s, v) { EveryText(e, s, v); }
  }

  lemma {:induction false} EveryText(e: Encoding, s: seq<byte>, v: seq<scalar>)
    requires Says(e, s, v)
    ensures Decode(e, s) == Outcome(v, None)
    decreases |v|
  {
    hide ReadOne, Octets, Allowed;
    if v != [] {
      ReadsWritten(e, v[0], s);
      var w := |Octets(e, v[0])|;
      assert s[w..] == AllOctets(e, v[1..]);
      EveryText(e, s[w..], v[1..]);
      assert v == [v[0]] + v[1..];
    }
  }

  lemma {:induction false} OnlyTexts(e: Encoding, s: seq<byte>, v: seq<scalar>)
    requires Decode(e, s) == Outcome(v, None)
    ensures Says(e, s, v)
    decreases |v|
  {
    hide ReadOne, Octets, Allowed;
    if v == [] {
      NothingRead(e, s);
    } else {
      First(e, s, v);
      hide Decode, ReadChar;
      ReadWritten(e, s);
      var w := ReadChar(e, s).width;
      OnlyTexts(e, s[w..], v[1..]);
      assert s == s[..w] + s[w..];
    }
  }

  lemma {:induction false} NothingRead(e: Encoding, s: seq<byte>)
    requires Decode(e, s) == Outcome([], None)
    ensures s == []
  {
    hide ReadOne, Allowed;
  }

  lemma {:induction false} First(e: Encoding, s: seq<byte>, v: seq<scalar>)
    requires v != [] && Decode(e, s) == Outcome(v, None)
    ensures s != [] && ReadChar(e, s).Char? && ReadOne(e, s) == ReadChar(e, s)
    ensures ReadChar(e, s).c == v[0] && Allowed(v[0])
    ensures Decode(e, s[ReadChar(e, s).width..]) == Outcome(v[1..], None)
  {
    hide ReadOne, Allowed;
    var r := Decode(e, s[ReadChar(e, s).width..]);
    assert ([v[0]] + r.chars)[1..] == r.chars;
  }

  /** Octets that are refused are the beginning of no text. */
  lemma {:induction false} RefusedForever(e: Encoding, raw: seq<byte>, v: seq<scalar>)
    requires raw != [] && ReadChar(e, raw).Bad? && AllAllowed(v)
    ensures !(raw <= AllOctets(e, v))
  {
    hide ReadOne, Octets, Allowed;
    if raw <= AllOctets(e, v) {
      var s := Octets(e, v[0]);
      if |raw| < |s| {
        assert raw < s;
        Waits(e, v[0], raw);
      } else {
        assert s <= raw;
        ReadsWritten(e, v[0], raw);
      }
      assert false;
    }
  }

  // ----- the beginning of a stream -----

  /** The encoding that the byte order mark tells, and the length of the mark. */
  function ByteOrder(s: seq<byte>): (Encoding, nat) {
    if [0xFF, 0xFE] <= s then (Utf16Encoding(false), 2)
    else if [0xFE, 0xFF] <= s then (Utf16Encoding(true), 2)
    else if [0xEF, 0xBB, 0xBF] <= s then (Utf8Encoding, 3)
    else (Utf8Encoding, 0)
  }

  /** An encoding set by the caller counts instead, and then nothing is taken for a mark. */
  function Opening(setting: Option<Encoding>, s: seq<byte>): (r: (Encoding, nat))
    ensures r.1 <= |s|
  {
    if setting.Some? then (setting.value, 0) else ByteOrder(s)
  }

  function Whole(setting: Option<Encoding>, s: seq<byte>): Outcome {
    var (e, n) := Opening(setting, s);
    Decode(e, s[n..])
  }

  lemma {:induction false} ThreeSuffice(s: seq<byte>, rest: seq<byte>)
    requires |s| >= 3 || rest == []
    ensures ByteOrder(s + rest) == ByteOrder(s)
  {
    if rest == [] {
      assert s + rest == s;
    } else {
      assert forall x: seq<byte> :: |x| <= 3 ==> (x <= s <==> x <= s + rest);
    }
  }

  // ----- the reader -----

  const INPUT_RAW_BUFFER_SIZE := 16384
  const INPUT_BUFFER_SIZE := 3 * INPUT_RAW_BUFFER_SIZE

  /** What the handler will deliver; an empty slice says that it is the end. */
  function Rest(slices: seq<seq<byte>>): seq<byte> {
    if slices == [] || slices[0] == [] then [] else slices[0] + Rest(slices[1..])
  }

  lemma {:induction false} AllUtf8Join(a: seq<code>, c: code)
    ensures AllUtf8(a + [c]) == AllUtf8(a) + Utf8(c)
  {
    if a == [] {
      assert a + [c] == [c];
      assert [c][1..] == [];
    } else {
      AllUtf8Join(a[1..], c);
      assert (a + [c])[1..] == a[1..] + [c];
    }
  }

  lemma {:induction false} FourEach(a: seq<code>)
    ensures |AllUtf8(a)| <= 4 * |a|
  {
    if a != [] { FourEach(a[1..]); }
  }

  /** The buffer grows by at most half as much again as is taken from the raw buffer. */
  lemma {:induction false} Growth(e: Encoding, c: scalar)
    ensures 2 * |Utf8(c)| <= 3 * |Octets(e, c)|
  {
  }

  class Reader {
    const setting: Option<Encoding>
    var slices: seq<seq<byte>>
    var encoding: Option<Encoding>
    var raw: seq<byte>
    var eof: bool
    var offset: nat
    var buffer: seq<byte>
    var unread: nat
    var problem: Option<Problem>

    /** The whole stream, the characters decoded so far, how many of them were skipped, and whether
        the NUL that marks the end follows them. */
    ghost const all: seq<byte>
    ghost var got: seq<scalar>
    ghost var taken: nat
    ghost var ended: bool

    constructor (setting: Option<Encoding>, slices: seq<seq<byte>>)
      ensures Ready() && this.setting == setting && all == Rest(slices)
    {
      this.setting, this.slices, encoding, raw, eof, offset := setting, slices, setting, [], false, 0;
      buffer, unread, problem := [], 0, None;
      all, got, taken, ended := Rest(slices), [], 0, false;
    }

    ghost function Delivered(): seq<code>
      reads this`got, this`ended
    {
      got + if ended then [0] else []
    }

    /** The octets not decoded yet are those in the raw buffer and those not yet delivered. */
    ghost predicate InputOk()
      reads this`raw, this`slices, this`eof, this`offset
    {
      && |raw| <= INPUT_RAW_BUFFER_SIZE && offset <= |all| && all[offset..] == raw + Rest(slices)
      && (eof ==> Rest(slices) == [])
    }

    /** What is decoded is the beginning of what the stream says. */
    ghost predicate DecodedOk()
      reads this`encoding, this`offset, this`got
    {
      if encoding.None? then setting.None? && offset == 0 && got == []
      else
        var (e, n) := Opening(setting, all);
        encoding.value == e && n <= offset <= |all| && Whole(setting, all) == After(got, Decode(e, all[offset..]))
    }

    ghost predicate BufferOk()
      reads this`buffer, this`unread, this`got, this`taken, this`ended
    {
      taken <= |got| && buffer == AllUtf8(Delivered()[taken..]) && unread == |Delivered()| - taken
    }

    ghost predicate Valid()
      reads this
    {
      InputOk() && DecodedOk() && BufferOk() && (ended ==> eof && raw == [] && encoding.Some?)
    }

    /** Between two calls. */
    ghost predicate Ready()
      reads this
    {
      Valid() && problem.None? && (eof ==> ended)
    }

    /** Calls the handler unless the raw buffer is full; it may deliver no more than there is room for. */
    method UpdateRawBuffer()
      requires InputOk()
      modifies this`raw, this`slices, this`eof
      ensures InputOk() && old(raw) <= raw && (old(eof) ==> eof)
      ensures |old(raw)| < INPUT_RAW_BUFFER_SIZE && !old(eof) ==> eof || |Rest(slices)| < |Rest(old(slices))|
    {
      if |raw| == INPUT_RAW_BUFFER_SIZE || eof {
        return;
      }
      if slices == [] || slices[0] == [] {
        eof := true;
      } else {
        var x, n := slices[0], INPUT_RAW_BUFFER_SIZE - |raw|;
        if n >= |x| {
          assert raw + Rest(slices) == raw + x + Rest(slices[1..]);
          raw, slices := raw + x, slices[1..];
        } else {
          Cut(raw, slices, n);
          raw, slices := raw + x[..n], [x[n..]] + slices[1..];
        }
      }
    }

    method ByteOrderMark() returns (e: Encoding, n: nat)
      ensures (e, n) == ByteOrder(raw) && n <= |raw|
    {
      if |raw| >= 2 && raw[..2] == [0xFF, 0xFE] {
        return Utf16Encoding(false), 2;
      } else if |raw| >= 2 && raw[..2] == [0xFE, 0xFF] {
        return Utf16Encoding(true), 2;
      } else if |raw| >= 3 && raw[..3] == [0xEF, 0xBB, 0xBF] {
        return Utf8Encoding, 3;
      } else {
        return Utf8Encoding, 0;
      }
    }

    method DetermineEncoding()
      requires Valid() && encoding.None? && !ended
      modifies this`raw, this`slices, this`eof, this`encoding, this`offset
      ensures Valid() && encoding.Some?
    {
      hide ByteOrder, Decode, AllUtf8;
      while !eof && |raw| < 3
        invariant InputOk() && offset == 0
        decreases |Rest(slices)|, if eof then 0 else 1
      {
        UpdateRawBuffer();
      }
      assert all[0..] == all;
      ThreeSuffice(raw, Rest(slices));
      var e, n := ByteOrderMark();
      Dropped(all, 0, raw, Rest(slices), n);
      encoding, raw, offset := Some(e), raw[n..], n;
      assert [] + Decode(e, all[n..]).chars == Decode(e, all[n..]).chars;
    }

    /** Decodes the UTF-8 character at the beginning of the raw buffer. */
    method DecodeUtf8() returns (r: Read)
      requires raw != []
      ensures r == ReadUtf8(raw)
    {
      hide LeadBits, LowBits, Shortest;
      var w := Width(raw[0]);
      if w == 0 {
        return Bad(BadLead);
      }
      if w > |raw| {
        return More(IncompleteCharacter);
      }
      var value, k := LeadBits(raw[0]), 1;
      while k < w
        invariant 1 <= k <= w <= |raw| && AllTrail(raw[..k]) && value == Value(raw[..k])
      {
        if !IsTrail(raw[k]) {
          assert raw[..w][k] == raw[k];
          return Bad(BadTrail);
        }
        assert raw[..k + 1][..k] == raw[..k];
        value := value * 0x40 + LowBits(raw[k]);
        k := k + 1;
      }
      if !Shortest(w, value) {
        return Bad(BadLength);
      }
      r := if !IsScalar(value) then Bad(BadCharacter) else Char(value, w);
    }

    /** Decodes the UTF-16 character there. */
    method DecodeUtf16(big: bool) returns (r: Read)
      requires raw != []
      ensures r == ReadUtf16(big, raw)
    {
      if |raw| < 2 {
        return More(IncompleteUnit);
      }
      var value := UnitAt(big, raw, 0);
      if Low(value) {
        return Bad(UnexpectedLow);
      }
      if !High(value) {
        return Char(value, 2);
      }
      if |raw| < 4 {
        return More(IncompletePair);
      }
      var value2 := UnitAt(big, raw, 2);
      r := if !Low(value2) then Bad(ExpectedLow) else Char(Pair(value, value2), 4);
    }

    /** Takes a character over from the raw buffer. */
    method PutCharacter(c: scalar, w: nat)
      requires Valid() && !ended && encoding.Some? && raw != [] && ReadChar(encoding.value, raw) == Char(c, w)
      modifies this`raw, this`offset, this`buffer, this`unread, this`got
      ensures Valid() && got == old(got) + [c] && raw == old(raw)[w..]
      ensures unread == old(unread) + 1 && 2 * (|buffer| - |old(buffer)|) <= 3 * (|old(raw)| - |raw|)
    {
      hide ReadOne, Octets, Utf8, Allowed, AllUtf8, Decode;
      Taken(all, offset, encoding.value, raw, Rest(slices), got);
      Dropped(all, offset, raw, Rest(slices), w);
      ReadWritten(encoding.value, raw);
      Growth(encoding.value, c);
      AllUtf8Join(got[taken..], c);
      assert got[taken..] + [c] == (got + [c])[taken..];
      assert Delivered() == got;
      raw, offset := raw[w..], offset + w;
      buffer, unread := buffer + Utf8(c), unread + 1;
      got := got + [c];
      assert Delivered() == got;
    }

    /** Decodes what is in the raw buffer, but for the beginning of a character. */
    method DecodeRawBuffer() returns (ok: bool)
      requires Valid() && !ended && encoding.Some? && problem.None?
      modifies this`raw, this`offset, this`buffer, this`unread, this`got, this`problem
      ensures Valid() && old(got) <= got
      ensures ok ==> problem.None? && |raw| < 4 && (eof ==> raw == [])
      ensures !ok ==> problem.Some? && Whole(setting, all) == Outcome(got, problem)
      ensures 2 * (|buffer| - |old(buffer)|) <= 3 * (|old(raw)| - |raw|)
    {
      hide ReadUtf8, ReadUtf16, Allowed, Utf8, AllUtf8;
      while raw != []
        invariant Valid() && problem.None? && old(got) <= got
        invariant 2 * (|buffer| - |old(buffer)|) <= 3 * (|old(raw)| - |raw|)
        decreases |raw|
      {
        var r;
        match encoding.value {
          case Utf8Encoding => r := DecodeUtf8();
          case Utf16Encoding(big) => r := DecodeUtf16(big);
        }
        if r.Char? && !Allowed(r.c) {
          r := Bad(ControlCharacter);
        }
        match r {
          case Char(c, w) => PutCharacter(c, w);
          case More(p) =>
            if eof {
              Stops(all, offset, encoding.value, raw, Rest(slices), got, p);
              problem := Some(p);
            }
            return !eof;
          case Bad(p) =>
            Stops(all, offset, encoding.value, raw, Rest(slices), got, p);
            problem := Some(p);
            return false;
        }
      }
      ok := true;
    }

    /** Marks the end with NUL. */
    method PutEnd()
      requires Valid() && problem.None? && !ended && eof && raw == [] && encoding.Some?
      modifies this`buffer, this`unread, this`ended
      ensures Ready() && ended && |buffer| == |old(buffer)| + 1
    {
      hide AllUtf8, Utf8, DecodedOk;
      EndAdded(got, taken);
      buffer, unread := buffer + [0], unread + 1;
      ended := true;
    }

    /** yaml_parser_update_buffer: makes sure that the buffer has so many characters, or all there are
        and the NUL after them. */
    method UpdateBuffer(length: nat) returns (ok: bool)
      requires Ready()
      modifies this`raw, this`slices, this`eof, this`encoding, this`offset, this`buffer, this`unread, this`got, this`ended,
               this`problem
      ensures Valid() && old(got) <= got
      ensures ok ==> Ready() && (unread >= length || ended)
      ensures !ok ==> problem.Some? && Whole(setting, all) == Outcome(got, problem)
      ensures length <= 6144 && |old(buffer)| <= INPUT_BUFFER_SIZE ==> |buffer| <= INPUT_BUFFER_SIZE
    {
      if (eof && raw == []) || unread >= length {
        return true;
      }
      if encoding.None? {
        DetermineEncoding();
      }
      ok := FillBuffer(length);
    }

    lemma AtMostFourEach()
      requires BufferOk()
      ensures |buffer| <= 4 * unread
    {
      FourEach(Delivered()[taken..]);
    }

    method FillBuffer(length: nat) returns (ok: bool)
      requires Valid() && problem.None? && !ended && encoding.Some? && unread < length
      modifies this`raw, this`slices, this`eof, this`offset, this`buffer, this`unread, this`got, this`ended, this`problem
      ensures Valid() && old(got) <= got
      ensures ok ==> Ready() && (unread >= length || ended)
      ensures !ok ==> problem.Some? && Whole(setting, all) == Outcome(got, problem)
      ensures length <= 6144 ==> |buffer| <= INPUT_BUFFER_SIZE
    {
      hide AllUtf8, Whole, BufferOk, DecodedOk;
      var first := true;
      while unread < length
        invariant Valid() && problem.None? && !ended && encoding.Some? && old(got) <= got && (!first ==> !eof && |raw| < 4)
        invariant first ==> unread < length
        invariant !first && length <= 6144 ==> |buffer| <= INPUT_BUFFER_SIZE
        decreases |Rest(slices)|, if eof then 0 else 1, first
      {
        AtMostFourEach();
        if !first || raw == [] {
          UpdateRawBuffer();
        }
        first := false;
        ok := DecodeRawBuffer();
        if !ok {
          return;
        }
        if eof {
          PutEnd();
          return;
        }
      }
      ok := true;
    }

    /** The first character of the buffer. */
    method Skip()
      requires Ready() && taken < |got|
      modifies this`buffer, this`unread, this`taken
      ensures Ready() && taken == old(taken) + 1 && unread == old(unread) - 1
      ensures old(buffer) == Utf8(got[old(taken)]) + buffer
    {
      hide Utf8, Width;
      assert Delivered()[taken] == got[taken];
      assert Delivered()[taken + 1..] == Delivered()[taken..][1..];
      WrittenPasses(got[taken]);
      buffer := buffer[Width(buffer[0])..];
      unread := unread - 1;
      taken := taken + 1;
    }
  }

  lemma {:induction false} EndAdded(v: seq<scalar>, n: nat)
    requires n <= |v|
    ensures v + [] == v && |v + [0]| == |v| + 1 && AllUtf8((v + [0])[n..]) == AllUtf8(v[n..]) + [0]
  {
    AllUtf8Join(v[n..], 0);
    assert (v + [0])[n..] == v[n..] + [0];
  }

  lemma {:induction false} Cut(raw: seq<byte>, slices: seq<seq<byte>>, n: nat)
    requires slices != [] && n < |slices[0]|
    ensures raw + Rest(slices) == raw + slices[0][..n] + Rest([slices[0][n..]] + slices[1..])
  {
    assert ([slices[0][n..]] + slices[1..])[1..] == slices[1..];
    assert slices[0] == slices[0][..n] + slices[0][n..];
  }

  lemma {:induction false} Dropped(s: seq<byte>, k: nat, raw: seq<byte>, rest: seq<byte>, w: nat)
    requires k <= |s| && s[k..] == raw + rest && w <= |raw|
    ensures k + w <= |s| && s[k + w..] == raw[w..] + rest
  {
    assert s[k + w..] == s[k..][w..];
  }

  /** One more character of the stream is decoded. */
  lemma {:induction false} Taken(s: seq<byte>, k: nat, e: Encoding, raw: seq<byte>, rest: seq<byte>, v: seq<scalar>)
    requires k <= |s| && s[k..] == raw + rest && raw != [] && ReadChar(e, raw).Char?
    ensures var r := ReadChar(e, raw);
            k + r.width <= |s| && After(v, Decode(e, s[k..])) == After(v + [r.c], Decode(e, s[k + r.width..]))
  {
    hide ReadOne, Allowed;
    var r := ReadChar(e, raw);
    Decided(e, raw, rest);
    assert s[k..][r.width..] == s[k + r.width..];
    AfterAfter(v, [r.c], Decode(e, s[k + r.width..]));
  }

  /** The stream is not accepted beyond the characters decoded. */
  lemma {:induction false} Stops(s: seq<byte>, k: nat, e: Encoding, raw: seq<byte>, rest: seq<byte>, v: seq<scalar>, p: Problem)
    requires k <= |s| && s[k..] == raw + rest && raw != []
    requires ReadChar(e, raw) == Bad(p) || (ReadChar(e, raw) == More(p) && rest == [])
    ensures After(v, Decode(e, s[k..])) == Outcome(v, Some(p))
  {
    hide ReadOne, Allowed;
    if rest == [] {
      assert raw + rest == raw;
    } else {
      Decided(e, raw, rest);
    }
  }

  // ----- slices do not matter -----

  /** However the handler slices a stream: of what two readers have decoded one continues the other,
      and once both have come to the end or to a problem they have decoded the same. */
  lemma {:induction false} SlicesDoNotMatter(a: Reader, b: Reader)
    requires a.Valid() && b.Valid() && a.all == b.all && a.setting == b.setting
    ensures a.got <= b.got || b.got <= a.got
    ensures a.ended ==> Whole(a.setting, a.all) == Outcome(a.got, None)
    ensures a.ended && b.ended ==> a.got == b.got
  {
    hide Decode;
    Prefix(a);
    Prefix(b);
    var w := Whole(a.setting, a.all).chars;
    assert a.got == w[..|a.got|] && b.got == w[..|b.got|];
  }

  lemma {:induction false} Prefix(a: Reader)
    requires a.Valid()
    ensures a.got <= Whole(a.setting, a.all).chars
    ensures a.ended ==> Whole(a.setting, a.all) == Outcome(a.got, None)
  {
    hide Whole, AllUtf8, Opening;
    if a.ended {
      assert a.all[a.offset..] == [];
      assert a.got + [] == a.got;
    }
  }

  lemma {:induction false} SameOctets(v: seq<scalar>)
    ensures AllOctets(Utf8Encoding, v) == AllUtf8(v)
  {
    if v != [] { SameOctets(v[1..]); }
  }

  /** A stream read to its end is the encoding of the characters; one in UTF-8 has gone through the
      buffer unchanged. */
  lemma {:induction false} ReadToTheEnd(a: Reader)
    requires a.Valid() && a.ended
    ensures var (e, n) := Opening(a.setting, a.all);
            Says(e, a.all[n..], a.got) && (e == Utf8Encoding ==> AllUtf8(a.got) == a.all[n..])
  {
    hide Decode;
    Prefix(a);
    var (e, n) := Opening(a.setting, a.all);
    Accepts(e, a.all[n..], a.got);
    SameOctets(a.got);
  }
}
