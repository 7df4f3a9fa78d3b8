/** LzmaEncode followed by LzmaDecode gives back the input, whatever it is. */
module RoundTrip {
  import opened Bytes
  import opened Packets
  import opened LzHash
  import opened Header
  import opened Stream
  import opened OneCall
  import FastMode
  import Decoder

  /** LzmaEncode in fast mode: header and stream. */
  method LzmaEncode(pr: Props, dictSize: nat, src: seq<byte>, g: Hashing, numFastBytes: nat, cutValue: nat, writeEndMark: bool)
    returns (props: seq<byte>, out: seq<byte>, ghost n: nat)
    requires ValidProps(pr) && 1 <= dictSize <= DICT_SIZE_MAX && HashingOk(g) && 5 <= numFastBytes <= LEN_MAX
    ensures var q := DecodeProps(props);
            && q.Some? && q.value.0 == pr && dictSize <= q.value.1
            && Reproduces(q.value.0, q.value.1, out, n, writeEndMark, src)
  {
    hide Reproduces, DecodeProps, RoundSize;
    var ok;
    ok, props := WriteProperties(pr, dictSize, LZMA_PROPS_SIZE);
    out, n := FastMode.Encode(pr, dictSize, src, g, numFastBytes, cutValue, writeEndMark);
    HeaderSuffices(pr, dictSize, props, out, n, writeEndMark, src);
  }

  /** The law the codec exists for, on every input, for every setting of the encoder. */
  method EncodeThenDecode(pr: Props, dictSize: nat, src: seq<byte>, g: Hashing, numFastBytes: nat, cutValue: nat, writeEndMark: bool,
                          finishEnd: bool) returns (dest: array<byte>, res: SRes, srcLen: nat)
    requires ValidProps(pr) && 1 <= dictSize <= DICT_SIZE_MAX && HashingOk(g) && 5 <= numFastBytes <= LEN_MAX
    ensures res == SZ_OK && dest[..] == src
  {
    hide Reproduces, DecodeProps, Refuses;
    var props, out;
    ghost var n;
    props, out, n := LzmaEncode(pr, dictSize, src, g, numFastBytes, cutValue, writeEndMark);
    AtLeastHeader(pr, DecodeProps(props).value.1, out, n, writeEndMark, src);
    dest := new byte[|src|];
    var destLen, status;
    ghost var seen, k, d;
    res, destLen, srcLen, status, seen, k, d := LzmaDecode(dest, out, props, finishEnd, n, writeEndMark, src);
  }

  lemma {:induction false} AtLeastHeader(pr: Props, dicSize: nat, out: seq<byte>, n: nat, mark: bool, text: seq<byte>)
    requires ValidProps(pr) && Reproduces(pr, dicSize, out, n, mark, text)
    ensures |out| >= 5
  {
    hide Steps, Step;
  }
}
