/** The hash functions of the match finder over two, three and four bytes. */
module LzHash {
  import opened Bytes

  const HASH2_SIZE := 0x400
  const HASH3_SIZE := 0x1_0000
  const FIX3_HASH_SIZE := HASH2_SIZE
  const FIX4_HASH_SIZE := HASH2_SIZE + HASH3_SIZE

  /** Exclusive or, bit by bit. */
  function Xor(a: nat, b: nat): nat
    decreases a + b
  {
    if a == 0 && b == 0 then 0 else (a % 2 + b % 2) % 2 + 2 * Xor(a / 2, b / 2)
  }

  lemma {:induction false} XorInjective(a: nat, b: nat, c: nat)
    requires Xor(a, b) == Xor(a, c)
    ensures b == c
    decreases a + b + c
  {
    if a != 0 || b != 0 || c != 0 {
      XorBits(a, b);
      XorBits(a, c);
      XorInjective(a / 2, b / 2, c / 2);
    }
  }

  lemma {:induction false} XorBits(a: nat, b: nat)
    ensures Xor(a, b) % 2 == (a % 2 + b % 2) % 2
    ensures Xor(a, b) / 2 == Xor(a / 2, b / 2)
  {
    if a == 0 && b == 0 {
      assert Xor(0, 0) == 0;
    }
  }

  /** The low bits of an exclusive or are that of the low bits. */
  lemma {:induction false} XorMod(a: nat, b: nat, k: nat)
    ensures Xor(a, b) % Pow2(k) == Xor(a % Pow2(k), b % Pow2(k))
    decreases k
  {
    if k == 0 {
      assert Xor(0, 0) == 0;
    } else {
      var p := Pow2(k - 1);
      XorMod(a / 2, b / 2, k - 1);
      XorBits(a, b);
      LowBits(Xor(a, b), p);
      LowBits(a, p);
      LowBits(b, p);
      XorBits(a % (2 * p), b % (2 * p));
    }
  }

  lemma {:induction false} LowBits(x: nat, p: nat)
    requires p > 0
    ensures x % (2 * p) == x % 2 + 2 * (x / 2 % p)
    ensures x % (2 * p) / 2 == x / 2 % p && x % (2 * p) % 2 == x % 2
  {
    var q, r := x / 2 / p, x / 2 % p;
    assert x / 2 == q * p + r;
    assert x == 2 * (q * p + r) + x % 2;
    assert 2 * (q * p) == q * (2 * p);
    DivUnique(x, 2 * p, q, 2 * r + x % 2);
  }

  /** What hashing needs: a table of 256 words and the mask of the main hash, one less than a power
      of 2. */
  datatype Hashing = Hashing(crc: seq<word>, mask: nat)

  predicate HashingOk(g: Hashing) {
    |g.crc| == 256
  }

  function Temp(g: Hashing, c0: byte, c1: byte): nat
    requires HashingOk(g)
  {
    Xor(g.crc[c0], c1)
  }

  function Hash2(g: Hashing, c0: byte, c1: byte): nat
    requires HashingOk(g)
  {
    Temp(g, c0, c1) % HASH2_SIZE
  }

  function Hash3(g: Hashing, c0: byte, c1: byte, c2: byte): nat
    requires HashingOk(g)
  {
    Xor(Temp(g, c0, c1), 0x100 * (c2 as int)) % HASH3_SIZE
  }

  function Hash4(g: Hashing, c0: byte, c1: byte, c2: byte, c3: byte): nat
    requires HashingOk(g)
  {
    Xor(Xor(Temp(g, c0, c1), 0x100 * (c2 as int)), U32(0x20 * (g.crc[c3] as int))) % (g.mask + 1)
  }

  lemma {:induction false} Sizes()
    ensures Pow2(8) == 0x100 && Pow2(10) == HASH2_SIZE && Pow2(16) == HASH3_SIZE
  {
    Pow2Table();
    Pow2Add(8, 2);
    Pow2Add(8, 8);
  }

  /** Equal first bytes and equal 2-byte hashes force equal second bytes. */
  lemma {:induction false} SecondByte(g: Hashing, c0: byte, c1: byte, d1: byte)
    requires HashingOk(g) && Hash2(g, c0, c1) == Hash2(g, c0, d1)
    ensures c1 == d1
  {
    hide Xor, Pow2;
    Sizes();
    var x := g.crc[c0];
    XorMod(x, c1, 10);
    XorMod(x, d1, 10);
    SmallMod(c1, HASH2_SIZE);
    SmallMod(d1, HASH2_SIZE);
    XorInjective(x % HASH2_SIZE, c1, d1);
  }

  /** Equal first bytes and equal 3-byte hashes force equal second and third bytes. */
  lemma {:induction false} ThirdByte(g: Hashing, c0: byte, c1: byte, c2: byte, d1: byte, d2: byte)
    requires HashingOk(g) && Hash3(g, c0, c1, c2) == Hash3(g, c0, d1, d2)
    ensures c1 == d1 && c2 == d2
  {
    hide Xor, Pow2;
    Sizes();
    LowByte(g, c0, c1, c2);
    LowByte(g, c0, d1, d2);
    XorInjective(g.crc[c0] % 0x100, c1, d1);
    var t := Temp(g, c0, c1);
    XorMod(t, 0x100 * (c2 as int), 16);
    XorMod(t, 0x100 * (d2 as int), 16);
    SmallMod(0x100 * (c2 as int), HASH3_SIZE);
    SmallMod(0x100 * (d2 as int), HASH3_SIZE);
    XorInjective(t % HASH3_SIZE, 0x100 * (c2 as int), 0x100 * (d2 as int));
  }

  lemma {:induction false} SmallMod(x: nat, m: nat)
    requires x < m
    ensures x % m == x
  {
  }

  lemma {:induction false} ModMod(x: nat)
    ensures x % HASH3_SIZE % 0x100 == x % 0x100
  {
  }

  lemma {:induction false} XorZero(x: nat)
    ensures Xor(x, 0) == x
    decreases x
  {
    if x != 0 {
      XorZero(x / 2);
    }
  }

  /** The low byte of the 3-byte hash depends on the first two bytes only. */
  lemma {:induction false} LowByte(g: Hashing, c0: byte, c1: byte, c2: byte)
    requires HashingOk(g)
    ensures Hash3(g, c0, c1, c2) % 0x100 == Xor(g.crc[c0] % 0x100, c1)
  {
    hide Xor, Pow2;
    Sizes();
    var t, hi := Temp(g, c0, c1), 0x100 * (c2 as int);
    ModMod(Xor(t, hi));
    XorMod(t, hi, 8);
    XorMod(g.crc[c0], c1, 8);
    SmallMod(c1, 0x100);
    DivUnique(hi, 0x100, c2, 0);
    XorZero(t % 0x100);
  }
}
