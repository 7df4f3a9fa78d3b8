/** Distance slots: the logarithmic class of a distance and the bits that complete it. */
module Slots {
  import opened Bytes

  /** Reference definition: halving a distance of at least 4 lowers its slot by two. */
  function Slot(pos: nat): nat {
    if pos < 4 then pos else Slot(pos / 2) + 2
  }

  /** How many bits below the two leading ones are left open by a slot. */
  function FooterBits(slot: nat): nat
    requires slot >= 2
  {
    slot / 2 - 1
  }

  /** The least distance of a slot. */
  function SlotBase(slot: nat): nat
    requires slot >= 2
  {
    if slot % 2 == 0 then 2 * Pow2(FooterBits(slot)) else 3 * Pow2(FooterBits(slot))
  }

  /** A slot and its footer bits determine the distance. */
  lemma {:induction false} SlotBounds(pos: nat)
    requires pos >= 4
    ensures Slot(pos) >= 4
    ensures SlotBase(Slot(pos)) <= pos < SlotBase(Slot(pos)) + Pow2(FooterBits(Slot(pos)))
  {
    if pos < 8 {
      assert Pow2(1) == 2 && Pow2(0) == 1;
      assert Slot(pos) == Slot(pos / 2) + 2 == pos / 2 + 2;
    } else {
      SlotBounds(pos / 2);
      var s := Slot(pos / 2);
      assert Slot(pos) == s + 2;
      assert FooterBits(s + 2) == FooterBits(s) + 1;
      assert SlotBase(s + 2) == 2 * SlotBase(s) by {
        assert (s + 2) % 2 == s % 2;
        assert Pow2(FooterBits(s) + 1) == 2 * Pow2(FooterBits(s));
      }
    }
  }

  lemma {:induction false} SlotRange(pos: nat, n: nat)
    requires n >= 2 && pos < Pow2(n)
    ensures Slot(pos) < 2 * n
  {
    if pos >= 4 {
      Pow2Table();
      SlotRange(pos / 2, n - 1);
    }
  }

  /** Slots never decrease with the distance. */
  lemma {:induction false} SlotMonotone(a: nat, b: nat)
    requires a <= b
    ensures Slot(a) <= Slot(b)
    decreases b
  {
    if b >= 4 {
      if a >= 4 {
        SlotMonotone(a / 2, b / 2);
      } else {
        SlotMonotone(2, b / 2);
        assert Slot(2) == 2;
      }
    }
  }

  /** Dropping k low bits lowers the slot by 2k, as long as two bits remain. */
  lemma {:induction false} SlotShift(pos: nat, k: nat)
    requires pos / Pow2(k) >= 2
    ensures Slot(pos) == Slot(pos / Pow2(k)) + 2 * k
    decreases k
  {
    if k > 0 {
      DivDiv(pos, k);
      assert pos / Pow2(k) == pos / 2 / Pow2(k - 1);
      assert pos / 2 >= 2 by {
        if pos / 2 < 2 {
          DivSmall(pos / 2, Pow2(k - 1));
        }
      }
      SlotShift(pos / 2, k - 1);
    }
  }

  lemma {:induction false} DivSmall(a: nat, d: nat)
    requires d >= 1
    ensures a / d <= a
  {
    var q := a / d;
    assert q * d <= a;
    assert q <= q * d by {
      assert q * d - q == q * (d - 1);
    }
  }

  lemma {:induction false} DivDiv(a: nat, k: nat)
    requires k > 0
    ensures a / Pow2(k) == a / 2 / Pow2(k - 1)
  {
    var d := Pow2(k - 1);
    var q := a / 2 / d;
    assert a / 2 == q * d + a / 2 % d;
    assert a == q * (2 * d) + (2 * (a / 2 % d) + a % 2) by {
      assert q * (2 * d) == 2 * (q * d);
    }
    DivUnique(a, 2 * d, q, 2 * (a / 2 % d) + a % 2);
  }

  // ----- LzmaEnc's table-driven form -----

  /** 9 + sizeof(size_t) / 2 with an 8-byte size_t. */
  const NUM_LOG_BITS := 13
  const DIC_LOG_SIZE_MAX_COMPRESS := (NUM_LOG_BITS - 1) * 2 + 7

  ghost predicate FastPosOk(g: seq<byte>) {
    |g| == 0x2000 && forall i :: 0 <= i < |g| ==> g[i] == Slot(i)
  }

  lemma {:induction false} SlotUnique(c: nat, s: nat)
    requires s >= 2 && SlotBase(s) <= c < SlotBase(s) + Pow2(FooterBits(s))
    ensures Slot(c) == s
    decreases s
  {
    Pow2Table();
    if s >= 4 {
      assert FooterBits(s) == FooterBits(s - 2) + 1 && (s - 2) % 2 == s % 2;
      assert SlotBase(s) == 2 * SlotBase(s - 2);
      SlotUnique(c / 2, s - 2);
      assert Pow2(FooterBits(s - 2)) >= 1;
      assert c >= 4;
    }
  }

  /** LzmaEnc_FastPosInit fills the table with the slots of all distances below 2^13. */
  method FastPosInit(g: array<byte>)
    requires g.Length == 0x2000
    modifies g
    ensures FastPosOk(g[..])
  {
    Pow2Table();
    var c, slotFast := 2, 2;
    g[0] := 0;
    g[1] := 1;
    while slotFast < 2 * NUM_LOG_BITS
      invariant 2 <= slotFast <= 2 * NUM_LOG_BITS
      invariant c == SlotBase(slotFast) <= 0x2000
      invariant forall i :: 0 <= i < c ==> g[i] == Slot(i)
    {
      NextSlot(slotFast);
      c := FillSlot(g, c, slotFast, Pow2(slotFast / 2 - 1));
      slotFast := slotFast + 1;
    }
  }

  method FillSlot(g: array<byte>, start: nat, slotFast: nat, k: nat) returns (c: nat)
    requires 2 <= slotFast < 256 && k == Pow2(FooterBits(slotFast))
    requires start == SlotBase(slotFast) && start + k <= g.Length
    requires forall i :: 0 <= i < start ==> g[i] == Slot(i)
    modifies g
    ensures c == start + k
    ensures forall i :: 0 <= i < c ==> g[i] == Slot(i)
  {
    c := start;
    var j := 0;
    while j < k
      invariant 0 <= j <= k && c == start + j
      invariant forall i :: 0 <= i < c ==> g[i] == Slot(i)
    {
      SlotUnique(c, slotFast);
      g[c] := slotFast;
      j := j + 1;
      c := c + 1;
    }
  }

  /** The slots partition the distances without gaps. */
  lemma {:induction false} NextSlot(s: nat)
    requires s >= 2
    ensures SlotBase(s) + Pow2(FooterBits(s)) == SlotBase(s + 1)
    ensures s < 2 * NUM_LOG_BITS ==> SlotBase(s + 1) <= 0x2000
  {
    if s % 2 == 0 {
      assert FooterBits(s + 1) == FooterBits(s);
    } else {
      assert FooterBits(s + 1) == FooterBits(s) + 1;
    }
    if s < 2 * NUM_LOG_BITS {
      NextSlotBase(s + 1);
    }
  }

  lemma {:induction false} NextSlotBase(s: nat)
    requires 2 <= s <= 2 * NUM_LOG_BITS
    ensures SlotBase(s) <= 0x2000
  {
    Pow2Table();
    if s < 2 * NUM_LOG_BITS {
      Pow2Monotone(FooterBits(s), 11);
    }
  }

  /** The branch-free choice of GetPosSlot: the sign of (2^19 - 1) - pos, spread over a mask. */
  function PosShift(pos: word): (i: nat)
    requires pos < 0x8000_0000
    ensures i == if pos < 0x8_0000 then 6 else 18
  {
    var sign := U32(0x7_FFFF - pos) / 0x8000_0000;
    var mask := U32(0 - sign);
    6 + if mask == 0 then 0 else NUM_LOG_BITS - 1
  }

  /** GetPosSlot: the table answers for the leading bits of any distance below 2^31. */
  method GetPosSlot(g: array<byte>, pos: word) returns (res: nat)
    requires FastPosOk(g[..])
    requires pos < 0x8000_0000
    ensures res == Slot(pos)
  {
    if pos < 128 {
      assert g[..][pos] == Slot(pos);
      res := g[pos];
    } else {
      var i := PosShift(pos);
      Pow2Table();
      var q := pos / Pow2(i);
      assert 2 <= q < 0x2000 by {
        if pos < 0x8_0000 {
          assert q == pos / 64;
        } else {
          assert q == pos / 0x4_0000;
        }
      }
      SlotShift(pos, i);
      assert g[..][q] == Slot(q);
      res := g[q] + 2 * i;
    }
  }
}
