/** The five bytes in front of a stream that carry lc, lp, pb and the dictionary size. */
module Header {
  import opened Bytes
  import opened Packets

  const LZMA_PROPS_SIZE := 5
  const LZMA_DIC_MIN := 4096
  /** What LzmaEnc_SetProps allows. */
  const DICT_SIZE_MAX := 0x4000_0000

  function LittleEndian(data: seq<byte>): word
    requires |data| == 4
  {
    data[0] + 0x100 * (data[1] as int) + 0x1_0000 * (data[2] as int) + 0x100_0000 * (data[3] as int)
  }

  /** LzmaProps_Decode; None stands for SZ_ERROR_UNSUPPORTED. */
  function DecodeProps(data: seq<byte>): Option<(Props, word)> {
    if |data| < LZMA_PROPS_SIZE then None
    else
      var dicSize := LittleEndian(data[1..5]);
      var d: nat := data[0];
      if d >= 9 * 5 * 5 then None
      else Some((Props(d % 9, d / 9 % 5, d / 9 / 5), if dicSize < LZMA_DIC_MIN then LZMA_DIC_MIN else dicSize))
  }

  lemma {:induction false} DecodedPropsValid(data: seq<byte>)
    requires DecodeProps(data).Some?
    ensures ValidProps(DecodeProps(data).value.0) && LZMA_DIC_MIN <= DecodeProps(data).value.1
  {
    hide LittleEndian;
  }

  /** Step k of the sizes the encoder announces: 2 and 3 times powers of 2, from 4096 on. */
  function RoundSize(k: nat): nat {
    (2 + k % 2) * Pow2(11 + k / 2)
  }

  lemma {:induction false} RoundSizeGrows(j: nat, k: nat)
    requires j < k
    ensures RoundSize(j) < RoundSize(k)
    decreases k
  {
    var i := k - 1;
    assert RoundSize(i) < RoundSize(k) by {
      if i % 2 == 0 {
        assert i / 2 == k / 2 && k % 2 == 1;
      } else {
        assert k / 2 == i / 2 + 1 && k % 2 == 0;
        assert Pow2(11 + k / 2) == 2 * Pow2(11 + i / 2);
      }
    }
    if j < i {
      RoundSizeGrows(j, i);
    }
  }

  lemma {:induction false} SizesUpToMax()
    ensures Pow2(29) == 0x2000_0000 && RoundSize(36) == DICT_SIZE_MAX && RoundSize(0) == LZMA_DIC_MIN
  {
    Pow2Table();
    Pow2Add(11, 18);
    Pow2Add(8, 10);
    assert Pow2(29) == Pow2(11) * Pow2(18);
  }

  /** LzmaEnc_WriteProperties: the announced dictionary size is the least round one that is not
      smaller than the real one. */
  method WriteProperties(pr: Props, dictSize: nat, size: nat) returns (ok: bool, props: seq<byte>)
    requires ValidProps(pr) && dictSize <= DICT_SIZE_MAX
    ensures ok <==> size >= LZMA_PROPS_SIZE
    ensures ok ==>
              && |props| == LZMA_PROPS_SIZE
              && var r := DecodeProps(props);
                 && r.Some? && r.value.0 == pr
                 && dictSize <= r.value.1 <= DICT_SIZE_MAX
                 && (exists k: nat :: r.value.1 == RoundSize(k))
                 && (forall k: nat :: dictSize <= RoundSize(k) ==> r.value.1 <= RoundSize(k))
  {
    hide Pow2, RoundSize;
    ok, props := false, [];
    if size < LZMA_PROPS_SIZE {
      return;
    }
    SizesUpToMax();
    var rounded, i := dictSize, 11;
    ghost var k := 0;
    while i <= 30
      invariant 11 <= i <= 31 && k == 2 * (i - 11) && rounded == dictSize
      invariant forall j: nat :: j < k ==> RoundSize(j) < dictSize
      decreases 30 - i
    {
      TwoSizes(k, i);
      if dictSize <= 2 * Pow2(i) {
        rounded := 2 * Pow2(i);
        break;
      }
      k := k + 1;
      if dictSize <= 3 * Pow2(i) {
        rounded := 3 * Pow2(i);
        break;
      }
      k := k + 1;
      i := i + 1;
    }
    Least(dictSize, k);
    props := [(pr.pb * 5 + pr.lp) * 9 + pr.lc,
              rounded % 0x100, rounded / 0x100 % 0x100, rounded / 0x1_0000 % 0x100, rounded / 0x100_0000 % 0x100];
    ok := true;
    PropsBack(pr, rounded, props);
  }

  lemma {:induction false} TwoSizes(k: nat, i: nat)
    requires i >= 11 && k == 2 * (i - 11)
    ensures RoundSize(k) == 2 * Pow2(i) && RoundSize(k + 1) == 3 * Pow2(i)
  {
    assert k / 2 == i - 11 && (k + 1) / 2 == i - 11;
  }

  lemma {:induction false} Least(dictSize: nat, k: nat)
    requires dictSize <= DICT_SIZE_MAX && dictSize <= RoundSize(k) && forall j: nat :: j < k ==> RoundSize(j) < dictSize
    ensures forall j: nat :: dictSize <= RoundSize(j) ==> RoundSize(k) <= RoundSize(j)
    ensures RoundSize(k) <= DICT_SIZE_MAX && RoundSize(k) >= LZMA_DIC_MIN
  {
    hide RoundSize;
    SizesUpToMax();
    forall j: nat | dictSize <= RoundSize(j)
      ensures RoundSize(k) <= RoundSize(j)
    {
      if k < j {
        RoundSizeGrows(k, j);
      }
    }
    if k > 0 {
      RoundSizeGrows(0, k);
    }
  }

  lemma {:induction false} WordBytes(size: nat)
    requires size < WORD
    ensures size == size % 0x100 + 0x100 * (size / 0x100 % 0x100) + 0x1_0000 * (size / 0x1_0000 % 0x100)
                    + 0x100_0000 * (size / 0x100_0000 % 0x100)
  {
    var q, r, t := size / 0x100, size / 0x1_0000, size / 0x100_0000;
    DivUnique(size, 0x1_0000, q / 0x100, 0x100 * (q % 0x100) + size % 0x100);
    DivUnique(size, 0x100_0000, r / 0x100, 0x1_0000 * (r % 0x100) + size % 0x1_0000);
    assert t < 0x100;
  }

  lemma {:induction false} PropsByte(pr: Props)
    requires ValidProps(pr)
    ensures var d := (pr.pb * 5 + pr.lp) * 9 + pr.lc;
            d < 9 * 5 * 5 && Props(d % 9, d / 9 % 5, d / 9 / 5) == pr
  {
    var h := pr.pb * 5 + pr.lp;
    DivUnique(h * 9 + pr.lc, 9, h, pr.lc);
    DivUnique(h, 5, pr.pb, pr.lp);
  }

  lemma {:induction false} PropsBack(pr: Props, size: nat, props: seq<byte>)
    requires ValidProps(pr) && LZMA_DIC_MIN <= size <= DICT_SIZE_MAX
    requires props == [(pr.pb * 5 + pr.lp) * 9 + pr.lc,
                       size % 0x100, size / 0x100 % 0x100, size / 0x1_0000 % 0x100, size / 0x100_0000 % 0x100]
    ensures DecodeProps(props) == Some((pr, size))
  {
    PropsByte(pr);
    WordBytes(size);
    var low := props[1..5];
    assert low == [size % 0x100, size / 0x100 % 0x100, size / 0x1_0000 % 0x100, size / 0x100_0000 % 0x100];
  }
}
