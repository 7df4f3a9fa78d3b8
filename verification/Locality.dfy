/** The decoder's reads are local: results depend only on the bytes that were consumed. */
module Locality {
  import opened Bytes
  import opened Cells
  import opened RangeSpec
  import opened Slots
  import opened Packets
  import opened DecSpec
  import opened Stream

  ghost predicate SamePrefix(a: seq<byte>, b: seq<byte>, n: nat) {
    n <= |a| && n <= |b| && forall i :: 0 <= i < n ==> a[i] == b[i]
  }

  lemma {:induction false} SamePrefixLess(a: seq<byte>, b: seq<byte>, n: nat, m: nat)
    requires SamePrefix(a, b, n) && m <= n
    ensures SamePrefix(a, b, m)
  {
  }

  lemma {:induction false} NormLocal(a: seq<byte>, b: seq<byte>, s: Src)
    requires Norm(a, s).Got? && SamePrefix(a, b, Norm(a, s).src.pos)
    ensures Norm(b, s) == Norm(a, s)
  {
  }

  lemma {:induction false} BitLocal(a: seq<byte>, b: seq<byte>, s: Src, c: Cell)
    requires DecBit(a, s, c).Got? && SamePrefix(a, b, DecBit(a, s, c).src.pos)
    ensures DecBit(b, s, c) == DecBit(a, s, c)
  {
    hide Bound, Adapt, Index;
    NormLocal(a, b, s);
  }

  lemma {:induction false} DirectLocal(a: seq<byte>, b: seq<byte>, s: Src)
    requires DecDirect(a, s).Got? && SamePrefix(a, b, DecDirect(a, s).src.pos)
    ensures DecDirect(b, s) == DecDirect(a, s)
  {
    hide Halve;
    NormLocal(a, b, s);
  }

  lemma {:induction false} TreeLocal(a: seq<byte>, b: seq<byte>, s: Src, t: Tree, limit: nat, i: nat)
    requires 1 <= i < limit
    requires DecTree(a, s, t, limit, i).Got? && SamePrefix(a, b, DecTree(a, s, t, limit, i).src.pos)
    ensures DecTree(b, s, t, limit, i) == DecTree(a, s, t, limit, i)
    decreases limit - i
  {
    hide DecBit, Node, SamePrefix;
    var r := DecBit(a, s, Node(t, i));
    var j := 2 * i + r.value;
    SamePrefixLess(a, b, DecTree(a, s, t, limit, i).src.pos, r.src.pos);
    BitLocal(a, b, s, Node(t, i));
    if j < limit {
      TreeLocal(a, b, r.src, t, limit, j);
    }
  }

  lemma {:induction false} ReverseLocal(a: seq<byte>, b: seq<byte>, s: Src, t: Tree, n: nat, i: nat, mask: nat, acc: nat)
    requires DecReverse(a, s, t, n, i, mask, acc).Got?
    requires SamePrefix(a, b, DecReverse(a, s, t, n, i, mask, acc).src.pos)
    ensures DecReverse(b, s, t, n, i, mask, acc) == DecReverse(a, s, t, n, i, mask, acc)
    decreases n
  {
    hide DecBit, Node, SamePrefix;
    if n > 0 {
      var r := DecBit(a, s, Node(t, i));
      SamePrefixLess(a, b, DecReverse(a, s, t, n, i, mask, acc).src.pos, r.src.pos);
      BitLocal(a, b, s, Node(t, i));
      ReverseLocal(a, b, r.src, t, n - 1, 2 * i + r.value, 2 * mask, if r.value == 1 then acc + mask else acc);
    }
  }

  lemma {:induction false} DirectBitsLocal(a: seq<byte>, b: seq<byte>, s: Src, n: nat, acc: nat)
    requires DecDirectBits(a, s, n, acc).Got? && SamePrefix(a, b, DecDirectBits(a, s, n, acc).src.pos)
    ensures DecDirectBits(b, s, n, acc) == DecDirectBits(a, s, n, acc)
    decreases n
  {
    hide DecDirect, SamePrefix;
    if n > 0 {
      var r := DecDirect(a, s);
      SamePrefixLess(a, b, DecDirectBits(a, s, n, acc).src.pos, r.src.pos);
      DirectLocal(a, b, s);
      DirectBitsLocal(a, b, r.src, n - 1, 2 * acc + r.value);
    }
  }

  lemma {:induction false} MatchedLocal(a: seq<byte>, b: seq<byte>, s: Src, base: nat, sym: nat, x: nat, offs: nat)
    requires 1 <= sym < 0x100 && (offs == 0 || offs == 0x100)
    requires DecMatched(a, s, base, sym, x, offs).Got?
    requires SamePrefix(a, b, DecMatched(a, s, base, sym, x, offs).src.pos)
    ensures DecMatched(b, s, base, sym, x, offs) == DecMatched(a, s, base, sym, x, offs)
    decreases 0x100 - sym
  {
    hide DecBit, AndOffs, NextOffs, SamePrefix;
    var mbit := AndOffs(2 * x, offs);
    AndOffsRange(2 * x, offs);
    var c := Lit(base + (offs + mbit + sym));
    var r := DecBit(a, s, c);
    SamePrefixLess(a, b, DecMatched(a, s, base, sym, x, offs).src.pos, r.src.pos);
    BitLocal(a, b, s, c);
    if 2 * sym + r.value < 0x100 {
      MatchedLocal(a, b, r.src, base, 2 * sym + r.value, 2 * x, NextOffs(offs, mbit, r.value));
    }
  }

  lemma {:induction false} AndOffsRange(x: nat, offs: nat)
    requires offs == 0 || offs == 0x100
    ensures AndOffs(x, offs) == 0 || AndOffs(x, offs) == offs
  {
  }

  lemma {:induction false} LenLocal(a: seq<byte>, b: seq<byte>, s: Src, rep: bool, ps: nat)
    requires DecLen(a, s, rep, ps).Got? && SamePrefix(a, b, DecLen(a, s, rep, ps).src.pos)
    ensures DecLen(b, s, rep, ps) == DecLen(a, s, rep, ps)
  {
    hide DecBit, DecTree, SamePrefix;
    var e := DecLen(a, s, rep, ps).src.pos;
    var r := DecBit(a, s, Choice(rep));
    SamePrefixLess(a, b, e, r.src.pos);
    BitLocal(a, b, s, Choice(rep));
    if r.value == 0 {
      TreeLocal(a, b, r.src, LowTree(rep, ps), 8, 1);
    } else {
      var r2 := DecBit(a, r.src, Choice2(rep));
      SamePrefixLess(a, b, e, r2.src.pos);
      BitLocal(a, b, r.src, Choice2(rep));
      if r2.value == 0 {
        TreeLocal(a, b, r2.src, MidTree(rep, ps), 8, 1);
      } else {
        TreeLocal(a, b, r2.src, HighTree(rep), 256, 1);
      }
    }
  }

  lemma {:induction false} FooterLocal(a: seq<byte>, b: seq<byte>, s: Src, slot: nat)
    requires START_POS_MODEL <= slot < 64
    requires DecFooter(a, s, slot).Got? && SamePrefix(a, b, DecFooter(a, s, slot).src.pos)
    ensures DecFooter(b, s, slot) == DecFooter(a, s, slot)
  {
    hide DecReverse, DecDirectBits, SamePrefix, SlotBase;
    var n := FooterBits(slot);
    if slot < END_POS_MODEL {
      ReverseLocal(a, b, s, SpecTree(SlotBase(slot) - slot - 1), n, 1, 1, SlotBase(slot));
    } else {
      var r := DecDirectBits(a, s, n - 4, 2 + slot % 2);
      SamePrefixLess(a, b, DecFooter(a, s, slot).src.pos, r.src.pos);
      DirectBitsLocal(a, b, s, n - 4, 2 + slot % 2);
      ReverseLocal(a, b, r.src, AlignTree, 4, 1, 1, r.value * 16);
    }
  }

  lemma {:induction false} DistLocal(a: seq<byte>, b: seq<byte>, s: Src, lenSym: nat)
    requires DecDist(a, s, lenSym).Got? && SamePrefix(a, b, DecDist(a, s, lenSym).src.pos)
    ensures DecDist(b, s, lenSym) == DecDist(a, s, lenSym)
  {
    hide DecTree, DecFooter, SamePrefix;
    var t := PosSlotTree(if lenSym < 4 then lenSym else 3);
    var r := DecTree(a, s, t, 64, 1);
    SamePrefixLess(a, b, DecDist(a, s, lenSym).src.pos, r.src.pos);
    TreeLocal(a, b, s, t, 64, 1);
    if r.value - 64 >= START_POS_MODEL {
      FooterLocal(a, b, r.src, r.value - 64);
    }
  }

  lemma {:induction false} LiteralLocal(a: seq<byte>, b: seq<byte>, s: Src, pr: Props, v: View)
    requires ValidProps(pr) && ViewOk(v)
    requires DecLiteral(a, s, pr, v).Got? && SamePrefix(a, b, DecLiteral(a, s, pr, v).src.pos)
    ensures DecLiteral(b, s, pr, v) == DecLiteral(a, s, pr, v)
  {
    hide DecTree, DecMatched, SamePrefix, LitBase;
    var base := LitBase(pr, v.hist);
    if v.state < NUM_LIT_STATES {
      TreeLocal(a, b, s, LitTree(base), 0x100, 1);
    } else {
      MatchedLocal(a, b, s, base, 1, v.hist[|v.hist| - v.reps[0]], 0x100);
    }
  }

  lemma {:induction false} RepIndexLocal(a: seq<byte>, b: seq<byte>, s: Src, st: nat, ps: nat)
    requires DecRepIndex(a, s, st, ps).Got? && SamePrefix(a, b, DecRepIndex(a, s, st, ps).src.pos)
    ensures DecRepIndex(b, s, st, ps) == DecRepIndex(a, s, st, ps)
  {
    hide DecBit, SamePrefix;
    var e := DecRepIndex(a, s, st, ps).src.pos;
    var r := DecBit(a, s, IsRepG0(st));
    SamePrefixLess(a, b, e, r.src.pos);
    BitLocal(a, b, s, IsRepG0(st));
    if r.value == 0 {
      BitLocal(a, b, r.src, IsRep0Long(st, ps));
    } else {
      var r2 := DecBit(a, r.src, IsRepG1(st));
      SamePrefixLess(a, b, e, r2.src.pos);
      BitLocal(a, b, r.src, IsRepG1(st));
      if r2.value == 1 {
        BitLocal(a, b, r2.src, IsRepG2(st));
      }
    }
  }

  lemma {:induction false} PacketLocal(a: seq<byte>, b: seq<byte>, s: Src, pr: Props, v: View)
    requires ValidProps(pr) && ViewOk(v)
    requires DecPacket(a, s, pr, v).Got? && SamePrefix(a, b, DecPacket(a, s, pr, v).src.pos)
    ensures DecPacket(b, s, pr, v) == DecPacket(a, s, pr, v)
  {
    hide DecBit, DecLiteral, DecLen, DecDist, DecRepIndex, SamePrefix, PosState, ViewOk;
    var ps := PosState(pr, |v.hist|);
    var e := DecPacket(a, s, pr, v).src.pos;
    var r := DecBit(a, s, IsMatch(v.state, ps));
    SamePrefixLess(a, b, e, r.src.pos);
    BitLocal(a, b, s, IsMatch(v.state, ps));
    if r.value == 0 {
      LiteralLocal(a, b, r.src, pr, v);
    } else {
      var r2 := DecBit(a, r.src, IsRep(v.state));
      SamePrefixLess(a, b, e, r2.src.pos);
      BitLocal(a, b, r.src, IsRep(v.state));
      if r2.value == 0 {
        var l := DecLen(a, r2.src, false, ps);
        SamePrefixLess(a, b, e, l.src.pos);
        LenLocal(a, b, r2.src, false, ps);
        DistLocal(a, b, l.src, l.value);
      } else {
        var i := DecRepIndex(a, r2.src, v.state, ps);
        SamePrefixLess(a, b, e, i.src.pos);
        RepIndexLocal(a, b, r2.src, v.state, ps);
        if i.value != -1 {
          LenLocal(a, b, i.src, true, ps);
        }
      }
    }
  }

  /** How many bytes have been read once a step is complete. */
  function EndPos(o: Outcome, start: nat): nat {
    match o
    case Next(d) => d.src.pos
    case EndMark(d) => d.src.pos
    case _ => start
  }

  /** A completed step is the same on any input that agrees on the bytes consumed: cutting the
      unread rest off, or putting more behind it, changes nothing. */
  lemma {:induction false} StepLocal(a: seq<byte>, b: seq<byte>, pr: Props, dicSize: nat, d: Dec)
    requires ValidProps(pr) && ViewOk(d.view)
    requires var o := Step(a, pr, dicSize, d); (o.Next? || o.EndMark?) && SamePrefix(a, b, EndPos(o, d.src.pos))
    ensures Step(b, pr, dicSize, d) == Step(a, pr, dicSize, d)
  {
    hide DecPacket, Norm, NextView, InWindow, SamePrefix, ViewOk, WellFormed;
    var p := DecPacket(a, d.src, pr, d.view);
    var n := Norm(a, p.src);
    SamePrefixLess(a, b, n.src.pos, p.src.pos);
    PacketLocal(a, b, d.src, pr, d.view);
    NormLocal(a, b, p.src);
  }

  /** Anything but a shortage stays as it is when more input follows. */
  lemma {:induction false} StepExtends(a: seq<byte>, b: seq<byte>, pr: Props, dicSize: nat, d: Dec)
    requires ValidProps(pr) && ViewOk(d.view) && a <= b && d.src.pos <= |a|
    requires !Step(a, pr, dicSize, d).NeedInput?
    ensures Step(b, pr, dicSize, d) == Step(a, pr, dicSize, d)
  {
    hide DecPacket, Norm, NextView, InWindow, SamePrefix, ViewOk, WellFormed;
    var p := DecPacket(a, d.src, pr, d.view);
    PrefixSame(a, b, p.src.pos);
    PacketLocal(a, b, d.src, pr, d.view);
    PrefixSame(a, b, Norm(a, p.src).src.pos);
    NormLocal(a, b, p.src);
  }

  lemma {:induction false} PrefixSame(a: seq<byte>, b: seq<byte>, n: nat)
    requires a <= b && n <= |a|
    ensures SamePrefix(a, b, n)
  {
  }

  lemma {:induction false} StepForward(inp: seq<byte>, pr: Props, dicSize: nat, d: Dec)
    requires ValidProps(pr) && ViewOk(d.view)
    ensures EndPos(Step(inp, pr, dicSize, d), d.src.pos) >= d.src.pos
  {
    hide DecPacket, Norm, NextView, InWindow, ViewOk, WellFormed;
  }

  lemma {:induction false} StepsForward(inp: seq<byte>, pr: Props, dicSize: nat, d: Dec, n: nat)
    requires ValidProps(pr) && ViewOk(d.view) && Steps(inp, pr, dicSize, d, n).Some?
    ensures Steps(inp, pr, dicSize, d, n).value.src.pos >= d.src.pos
    ensures n > 0 ==> Steps(inp, pr, dicSize, d, n).value.src.pos >= EndPos(Step(inp, pr, dicSize, d), d.src.pos)
    decreases n
  {
    hide Step, ViewOk;
    if n > 0 {
      StepForward(inp, pr, dicSize, d);
      StepsForward(inp, pr, dicSize, Step(inp, pr, dicSize, d).d, n - 1);
    }
  }

  /** A run depends only on the bytes it consumed. */
  lemma {:induction false} StepsLocal(a: seq<byte>, b: seq<byte>, pr: Props, dicSize: nat, d: Dec, n: nat)
    requires ValidProps(pr) && ViewOk(d.view) && Steps(a, pr, dicSize, d, n).Some?
    requires SamePrefix(a, b, Steps(a, pr, dicSize, d, n).value.src.pos)
    ensures Steps(b, pr, dicSize, d, n) == Steps(a, pr, dicSize, d, n)
    decreases n
  {
    hide Step, ViewOk, SamePrefix;
    if n > 0 {
      var o := Step(a, pr, dicSize, d);
      StepsForward(a, pr, dicSize, d, n);
      SamePrefixLess(a, b, Steps(a, pr, dicSize, d, n).value.src.pos, o.d.src.pos);
      StepLocal(a, b, pr, dicSize, d);
      StepsLocal(a, b, pr, dicSize, o.d, n - 1);
    }
  }

  lemma {:induction false} OutgrownLocal(a: seq<byte>, b: seq<byte>, pr: Props, dicSize: nat, d: Dec, n: nat, room: int)
    requires ValidProps(pr) && ViewOk(d.view) && Steps(a, pr, dicSize, d, n).Some?
    requires SamePrefix(a, b, Steps(a, pr, dicSize, d, n).value.src.pos) && Outgrown(a, pr, dicSize, d, n, room)
    ensures Outgrown(b, pr, dicSize, d, n, room)
  {
    hide Steps, ViewOk, SamePrefix;
    if n > 0 {
      var e := Steps(a, pr, dicSize, d, n - 1).value;
      StepsJoin(a, pr, dicSize, d, n - 1, 1);
      StepsForward(a, pr, dicSize, e, 1);
      SamePrefixLess(a, b, Steps(a, pr, dicSize, d, n).value.src.pos, e.src.pos);
      StepsLocal(a, b, pr, dicSize, d, n - 1);
    }
  }

  lemma {:induction false} StartFacts(inp: seq<byte>, pr: Props)
    requires |inp| >= RC_INIT_SIZE
    ensures ViewOk(DecStart(inp, pr).view) && DecStart(inp, pr).src.pos == RC_INIT_SIZE
    ensures DecStart(inp, pr).view == VIEW_START
  {
    hide InitCode, InitProbs;
  }

  lemma {:induction false} StartLocal(a: seq<byte>, b: seq<byte>, pr: Props)
    requires SamePrefix(a, b, RC_INIT_SIZE)
    ensures DecStart(a, pr) == DecStart(b, pr)
  {
    hide InitProbs;
  }

  /** A run from the start of the stream is the same on all inputs that begin with the bytes it
      consumed. */
  lemma {:induction false} RunLocal(a: seq<byte>, b: seq<byte>, pr: Props, dicSize: nat, n: nat, d: Dec)
    requires ValidProps(pr) && |a| >= RC_INIT_SIZE && ViewOk(DecStart(a, pr).view)
    requires Steps(a, pr, dicSize, DecStart(a, pr), n) == Some(d) && SamePrefix(a, b, d.src.pos)
    ensures RC_INIT_SIZE <= d.src.pos && ViewOk(d.view)
    ensures |b| >= RC_INIT_SIZE && DecStart(b, pr) == DecStart(a, pr)
    ensures Steps(b, pr, dicSize, DecStart(b, pr), n) == Some(d)
    ensures forall room :: Outgrown(a, pr, dicSize, DecStart(a, pr), n, room) ==> Outgrown(b, pr, dicSize, DecStart(b, pr), n, room)
  {
    hide Steps, DecStart, SamePrefix, ViewOk, Outgrown;
    StartFacts(a, pr);
    StepsForward(a, pr, dicSize, DecStart(a, pr), n);
    SamePrefixLess(a, b, d.src.pos, RC_INIT_SIZE);
    SamePrefixShort(a, b, RC_INIT_SIZE);
    StartLocal(a, b, pr);
    StepsLocal(a, b, pr, dicSize, DecStart(a, pr), n);
    forall room | Outgrown(a, pr, dicSize, DecStart(a, pr), n, room)
      ensures Outgrown(b, pr, dicSize, DecStart(b, pr), n, room)
    {
      OutgrownLocal(a, b, pr, dicSize, DecStart(a, pr), n, room);
    }
  }

  lemma {:induction false} SamePrefixShort(a: seq<byte>, b: seq<byte>, n: nat)
    requires SamePrefix(a, b, n)
    ensures n <= |a| && n <= |b|
  {
  }

  lemma {:induction false} CutSame(a: seq<byte>, n: nat)
    requires n <= |a|
    ensures SamePrefix(a, a[..n], n)
  {
  }
}
