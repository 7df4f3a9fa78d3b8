/** The match finder with 4-byte hash and binary trees, reading a stream through a block buffer. */
module MatchFinder {
  import opened Bytes
  import opened Suffixes
  import opened SuffixTree
  import opened BinTree
  import opened LzHash
  import opened MatchIndex

  const MAX_VAL_FOR_NORMALIZE := 0xFFFF_FFFF
  const NORMALIZE_STEP_MIN := 0x400
  const MAX_HISTORY_SIZE := 0xC000_0000

  lemma {:induction false} WordDifference(pos: word, n: nat)
    requires n < WORD
    ensures U32(U32(pos + n) - pos) == n
  {
  }

  class Finder {
    /** Everything that the stream delivers, and how much of it has been read. */
    const input: seq<byte>
    var readPos: nat

    const g: Hashing
    const cyclicBufferSize: nat
    const matchMaxLen: nat
    const keepSizeBefore: nat
    const keepSizeAfter: nat
    const cutValue: nat
    const bufferBase: array<byte>
    const hash: array<word>
    const son: array<word>

    var buffer: nat
    var pos: word
    var posLimit: word
    var streamPos: word
    var lenLimit: nat
    var cyclicBufferPos: nat
    var streamEndWasReached: bool

    /** How many bytes of the stream lie before the current one; the trees of the hash values; and
        whether every search so far ran to its end. */
    ghost var cur: nat
    ghost var forest: seq<Tree>
    ghost var complete: bool

    ghost predicate Created() {
      && HashingOk(g) && hash.Length == FIX4_HASH_SIZE + g.mask + 1
      && 1 <= cyclicBufferSize <= MAX_HISTORY_SIZE + 1 && son.Length == 2 * cyclicBufferSize
      && cyclicBufferSize <= keepSizeBefore && 4 <= matchMaxLen <= keepSizeAfter
      && keepSizeBefore + keepSizeAfter < bufferBase.Length < WORD
      && hash != son && hash as object != bufferBase && son as object != bufferBase
    }

    /** MatchFinder_Create for 4-byte hashes, then MatchFinder_Init. */
    constructor (input: seq<byte>, g: Hashing, historySize: nat, keepAddBufferBefore: nat, matchMaxLen: nat,
                 keepAddBufferAfter: nat, sizeReserv: nat, cutValue: nat)
      requires HashingOk(g) && historySize <= MAX_HISTORY_SIZE && sizeReserv > 0 && matchMaxLen >= 4
      requires historySize + keepAddBufferBefore + 1 + matchMaxLen + keepAddBufferAfter + sizeReserv < WORD
      ensures Valid() && this.input == input && cur == 0 && complete
      ensures this.cyclicBufferSize == historySize + 1 && this.matchMaxLen == matchMaxLen && this.cutValue == cutValue
      ensures keepSizeBefore == historySize + keepAddBufferBefore + 1 && keepSizeAfter == matchMaxLen + keepAddBufferAfter
      ensures fresh(hash) && fresh(son) && fresh(bufferBase)
    {
      hide Buffered, Limited, Indexed, HeadsOk, ForestOk, AllCovered;
      this.input, this.g, this.matchMaxLen, this.cutValue := input, g, matchMaxLen, cutValue;
      keepSizeBefore, keepSizeAfter := historySize + keepAddBufferBefore + 1, matchMaxLen + keepAddBufferAfter;
      cyclicBufferSize := historySize + 1;
      bufferBase := new byte[historySize + keepAddBufferBefore + 1 + matchMaxLen + keepAddBufferAfter + sizeReserv];
      hash := new word[FIX4_HASH_SIZE + g.mask + 1](_ => EMPTY_HASH_VALUE);
      son := new word[2 * (historySize + 1)];
      buffer, cyclicBufferPos, readPos, streamEndWasReached := 0, 0, 0, false;
      pos, streamPos, posLimit, lenLimit := historySize + 1, historySize + 1, historySize + 1, 0;
      cur, complete := 0, true;
      forest := seq(g.mask + 1, _ => Leaf);
      new;
      Start();
    }

    /** MatchFinder_Init, once all positions are reset. */
    method Start()
      requires Created() && cur == buffer == readPos == cyclicBufferPos == 0 && pos == streamPos == cyclicBufferSize
      requires !streamEndWasReached && |forest| == g.mask + 1 && forall h :: 0 <= h < |forest| ==> forest[h] == Leaf
      requires forall k :: 0 <= k < hash.Length ==> hash[k] == EMPTY_HASH_VALUE
      modifies this`readPos, this`streamPos, this`streamEndWasReached, this`posLimit, this`lenLimit, bufferBase
      ensures Valid()
    {
      hide U32, HeadsOk, ForestOk, AllCovered, Limited;
      U32Small(pos);
      ReadBlock();
      AvailableBytes();
      SetLimits();
      EmptyForest(input, g, Here(), hash[..], son[..], forest, lenLimit);
    }

    ghost function Here(): Place
      reads this`cur, this`pos
    {
      Place(cur, pos, cyclicBufferSize)
    }

    // ----- the window onto the stream -----

    /** The buffer holds the stream from its own start up to what has been read. */
    ghost predicate Buffered()
      reads this`readPos, this`buffer, this`pos, this`streamPos, this`cur, this`streamEndWasReached, bufferBase
    {
      && cur <= readPos <= |input| && buffer <= cur && (buffer == cur || keepSizeBefore <= buffer)
      && buffer + (readPos - cur) <= bufferBase.Length && streamPos == U32(pos + (readPos - cur))
      && (streamEndWasReached ==> readPos == |input|)
      && forall j :: cur - buffer <= j < readPos ==> Held(bufferBase[..], buffer, input, cur, j)
    }

    /** MatchFinder_GetNumAvailableBytes. */
    function Available(): word
      reads this`streamPos, this`pos
    {
      U32(streamPos - pos)
    }

    lemma {:induction false} AvailableBytes()
      requires Created() && Buffered()
      ensures Available() == readPos - cur
    {
      WordDifference(pos, readPos - cur);
    }

    /** stream->Read: some of what is left, nothing only at the end. */
    method Read(dest: nat, size: nat) returns (n: nat)
      requires dest + size <= bufferBase.Length && size > 0 && readPos <= |input|
      modifies this`readPos, bufferBase
      ensures n <= size && readPos == old(readPos) + n <= |input| && (n == 0 ==> readPos == |input|)
      ensures forall k :: dest <= k < dest + n ==> bufferBase[k] == input[k - dest + old(readPos)]
      ensures forall k :: 0 <= k < dest ==> bufferBase[k] == old(bufferBase[k])
    {
      var some := if size < |input| - readPos then size else |input| - readPos;
      assert some <= size && readPos + some <= |input| && (some == 0 ==> readPos == |input|);
      n :| 0 <= n <= size && readPos + n <= |input| && (n == 0 ==> readPos == |input|);
      forall k | dest <= k < dest + n {
        bufferBase[k] := input[k - dest + readPos];
      }
      readPos := readPos + n;
    }

    /** MatchFinder_ReadBlock. */
    method ReadBlock()
      requires Created() && Buffered()
      modifies this`readPos, this`streamPos, this`streamEndWasReached, bufferBase
      ensures Buffered() && old(readPos) <= readPos
      ensures streamEndWasReached || Available() > keepSizeAfter || buffer + Available() == bufferBase.Length
      ensures old(streamEndWasReached) ==> readPos == old(readPos) && streamEndWasReached
    {
      hide U32;
      AvailableBytes();
      if streamEndWasReached {
        return;
      }
      while true
        invariant Buffered() && !streamEndWasReached && old(readPos) <= readPos && Available() == readPos - cur
        decreases |input| - readPos
      {
        var dest := buffer + Available();
        var size := bufferBase.Length - dest;
        if size == 0 {
          return;
        }
        ghost var before, start := bufferBase[..], readPos;
        var n := Read(dest, size);
        if n == 0 {
          assert bufferBase[..dest] == before[..dest];
          StillHeld(before, bufferBase[..], start);
          streamEndWasReached := true;
          return;
        }
        assert bufferBase[..dest] == before[..dest];
        StillHeld(before, bufferBase[..], start);
        NewHeld(bufferBase[..], start);
        streamPos := U32(streamPos + n);
        MoreAvailable(pos, start - cur, n);
        AvailableBytes();
        if Available() > keepSizeAfter {
          return;
        }
      }
    }

    lemma {:induction false} StillHeld(before: seq<byte>, after: seq<byte>, end: nat)
      requires buffer <= cur <= end && |before| == |after| && buffer + (end - cur) <= |before|
      requires before[..buffer + (end - cur)] == after[..buffer + (end - cur)]
      requires forall j :: cur - buffer <= j < end ==> Held(before, buffer, input, cur, j)
      ensures forall j :: cur - buffer <= j < end ==> Held(after, buffer, input, cur, j)
    {
      forall j | cur - buffer <= j < end
        ensures Held(after, buffer, input, cur, j)
      {
        assert Held(before, buffer, input, cur, j);
        var k := buffer + j - cur;
        assert before[k] == before[..buffer + (end - cur)][k] == after[..buffer + (end - cur)][k];
      }
    }

    lemma {:induction false} NewHeld(block: seq<byte>, start: nat)
      requires buffer <= cur <= start <= readPos <= |input| && buffer + (readPos - cur) <= |block|
      requires forall k :: buffer + (start - cur) <= k < buffer + (readPos - cur) ==> block[k] == input[k - (buffer + (start - cur)) + start]
      ensures forall j :: start <= j < readPos ==> Held(block, buffer, input, cur, j)
    {
      forall j | start <= j < readPos
        ensures Held(block, buffer, input, cur, j)
      {
        assert block[buffer + (j - cur)] == input[j];
      }
    }

    /** memmove to the front of the buffer. */
    method MoveToFront(from: nat, size: nat)
      requires from + size <= bufferBase.Length
      modifies bufferBase
      ensures forall k :: 0 <= k < size ==> bufferBase[k] == old(bufferBase[from..from + size])[k]
    {
      ghost var before := bufferBase[..];
      forall k | 0 <= k < size {
        bufferBase[k] := bufferBase[from + k];
      }
      assert forall k :: 0 <= k < size ==> bufferBase[k] == before[from..from + size][k];
      assert before[from..from + size] == old(bufferBase[from..from + size]);
    }

    /** MatchFinder_MoveBlock: keeps keepSizeBefore bytes of history and everything after them. */
    method MoveBlock()
      requires Created() && Buffered() && keepSizeBefore <= buffer
      modifies this`buffer, bufferBase
      ensures Buffered() && buffer == keepSizeBefore
    {
      hide U32, Held;
      AvailableBytes();
      ghost var before, was := bufferBase[..], buffer;
      MoveToFront(buffer - keepSizeBefore, Available() + keepSizeBefore);
      buffer := keepSizeBefore;
      Shifted(before, was, bufferBase[..]);
    }

    lemma {:induction false} Shifted(before: seq<byte>, was: nat, after: seq<byte>)
      requires keepSizeBefore == buffer <= was <= cur <= readPos && |after| == |before| && was + (readPos - cur) <= |before|
      requires forall k :: 0 <= k < keepSizeBefore + (readPos - cur) ==>
                             after[k] == before[was - keepSizeBefore..was + (readPos - cur)][k]
      requires forall j :: cur - was <= j < readPos ==> Held(before, was, input, cur, j)
      ensures forall j :: cur - buffer <= j < readPos ==> Held(after, buffer, input, cur, j)
    {
      forall j | cur - buffer <= j < readPos
        ensures Held(after, buffer, input, cur, j)
      {
        assert Held(before, was, input, cur, j);
        assert after[buffer + j - cur] == before[was - keepSizeBefore..was + (readPos - cur)][buffer + j - cur];
      }
    }

    predicate NeedMove()
      reads this`buffer
    {
      bufferBase.Length - buffer <= keepSizeAfter
    }

    /** MatchFinder_CheckAndMoveAndRead: afterwards there are enough bytes ahead, or the stream has
        been read to its end. */
    method CheckAndMoveAndRead()
      requires Created() && Buffered()
      modifies this`buffer, this`readPos, this`streamPos, this`streamEndWasReached, bufferBase
      ensures Buffered() && (streamEndWasReached || Available() > keepSizeAfter)
      ensures old(streamEndWasReached) ==> streamEndWasReached && readPos == old(readPos)
    {
      hide Held, U32;
      if NeedMove() {
        MoveBlock();
      }
      ReadBlock();
      AvailableBytes();
    }

    // ----- limits -----

    ghost predicate Limited()
      reads this`pos, this`posLimit, this`streamPos, this`lenLimit, this`cyclicBufferPos, this`streamEndWasReached, this`cur
    {
      && cyclicBufferSize <= pos <= posLimit && cyclicBufferPos < cyclicBufferSize && cyclicBufferPos == cur % cyclicBufferSize
      && (streamEndWasReached || Available() > keepSizeAfter)
      && lenLimit == Min(matchMaxLen, Available())
      && (Available() > 0 ==> pos < posLimit)
      && posLimit - pos <= cyclicBufferSize - cyclicBufferPos
      && (posLimit - pos <= 1 || posLimit - pos + keepSizeAfter <= Available())
    }

    /** MatchFinder_SetLimits. */
    method SetLimits()
      requires Created() && cyclicBufferSize <= pos < MAX_VAL_FOR_NORMALIZE
      requires cyclicBufferPos < cyclicBufferSize && cyclicBufferPos == cur % cyclicBufferSize
      requires streamEndWasReached || Available() > keepSizeAfter
      modifies this`posLimit, this`lenLimit
      ensures Limited() && lenLimit == Min(matchMaxLen, Available())
    {
      hide U32;
      var limit: int := MAX_VAL_FOR_NORMALIZE - pos;
      var limit2: int := cyclicBufferSize - cyclicBufferPos;
      if limit2 < limit {
        limit := limit2;
      }
      limit2 := Available();
      if limit2 <= keepSizeAfter {
        if limit2 > 0 {
          limit2 := 1;
        }
      } else {
        limit2 := limit2 - keepSizeAfter;
      }
      if limit2 < limit {
        limit := limit2;
      }
      var len: nat := Available();
      if len > matchMaxLen {
        len := matchMaxLen;
      }
      lenLimit := len;
      posLimit := pos + limit;
    }

    // ----- the index -----

    ghost predicate Indexed(w: Place, n: nat)
      requires Created() && PlaceOk(w) && w.size == cyclicBufferSize
      reads this`forest, this`complete, hash, son
    {
      && HeadsOk(input, g, w, hash[..]) && ForestOk(input, g, w, hash[..], son[..], forest, n)
      && (complete ==> AllCovered(input, g, w, forest, n))
    }

    ghost predicate Valid()
      reads this, hash, son, bufferBase
    {
      Created() && Buffered() && Limited() && Indexed(Here(), lenLimit)
    }

    method RenumberAll(subValue: word)
      requires Created() && PlaceOk(Here()) && Indexed(Here(), lenLimit) && subValue <= pos - cyclicBufferSize
      modifies hash, son
      ensures Indexed(Place(cur, pos - subValue, cyclicBufferSize), lenLimit)
      ensures SameDistances(cyclicBufferSize, pos, old(hash[..]), pos - subValue, hash[..])
      ensures SameDistances(cyclicBufferSize, pos, old(son[..]), pos - subValue, son[..])
    {
      hide HeadsOk, AllCovered, ForestOk, Renumbered, SameDistances;
      ghost var w, x, h0, s0 := Here(), Place(cur, pos - subValue, cyclicBufferSize), hash[..], son[..];
      Normalize3(subValue, hash);
      Normalize3(subValue, son);
      DistancesKept(w, h0, hash[..], subValue);
      DistancesKept(w, s0, son[..], subValue);
      AllRenumbered(input, g, w, h0, s0, forest, lenLimit, subValue, hash[..], son[..]);
      if complete {
        ForestSize(input, g, w, h0, s0, forest, lenLimit);
        CoveredShorter(input, g, w, x, forest, lenLimit, lenLimit);
      }
    }

    /** MatchFinder_Normalize: position numbers start over, distances stay. */
    method Normalize()
      requires Created() && PlaceOk(Here()) && pos == MAX_VAL_FOR_NORMALIZE && Indexed(Here(), lenLimit)
      requires Buffered() && pos <= posLimit
      modifies this`pos, this`posLimit, this`streamPos, hash, son
      ensures PlaceOk(Here()) && pos < MAX_VAL_FOR_NORMALIZE && Indexed(Here(), lenLimit)
      ensures Buffered() && posLimit - pos == old(posLimit) - old(pos) && Available() == old(Available())
      ensures SameDistances(cyclicBufferSize, old(pos), old(hash[..]), pos, hash[..])
      ensures SameDistances(cyclicBufferSize, old(pos), old(son[..]), pos, son[..])
    {
      hide HeadsOk, ForestOk, AllCovered, Held, Indexed, U32, SameDistances;
      AvailableBytes();
      // (pos - historySize - 1) & kNormalizeMask
      var x := pos - cyclicBufferSize;
      var subValue := x - x % NORMALIZE_STEP_MIN;
      ReducedStream(pos, readPos - cur, subValue);
      RenumberAll(subValue);
      posLimit := posLimit - subValue;
      pos := pos - subValue;
      streamPos := U32(streamPos - subValue);
      AvailableBytes();
    }

    lemma {:induction false} IndexedShorter(n: nat)
      requires Created() && PlaceOk(Here()) && Indexed(Here(), lenLimit) && n <= lenLimit
      ensures Indexed(Here(), n)
    {
      hide HeadsOk, ForestOk, AllCovered;
      ForestShorter(input, g, Here(), hash[..], son[..], forest, lenLimit, n);
      if complete {
        ForestSize(input, g, Here(), hash[..], son[..], forest, lenLimit);
        CoveredShorter(input, g, Here(), Here(), forest, lenLimit, n);
      }
    }

    /** MatchFinder_CheckLimits. */
    method CheckLimits()
      requires Created() && Buffered() && PlaceOk(Here()) && Indexed(Here(), lenLimit) && pos == posLimit
      requires cyclicBufferPos <= cyclicBufferSize
      requires if cyclicBufferPos == cyclicBufferSize then cur % cyclicBufferSize == 0 else cyclicBufferPos == cur % cyclicBufferSize
      requires if streamEndWasReached then Min(matchMaxLen, Available()) <= lenLimit
               else keepSizeAfter <= Available() && lenLimit == matchMaxLen
      modifies this`buffer, this`readPos, this`streamPos, this`streamEndWasReached, this`pos, this`posLimit, this`lenLimit
      modifies this`cyclicBufferPos, bufferBase, hash, son
      ensures Valid()
    {
      hide HeadsOk, ForestOk, AllCovered, Held, Indexed, U32, Buffered, Limited;
      if pos == MAX_VAL_FOR_NORMALIZE {
        Normalize();
      }
      AvailableBytes();
      if !streamEndWasReached && keepSizeAfter == Available() {
        CheckAndMoveAndRead();
      }
      if cyclicBufferPos == cyclicBufferSize {
        cyclicBufferPos := 0;
      }
      AvailableBytes();
      IndexedShorter(Min(matchMaxLen, Available()));
      SetLimits();
    }

    /** ++cyclicBufferPos; buffer++; ++pos. */
    method Advance()
      requires Created() && Buffered() && Available() > 0 && pos < MAX_VAL_FOR_NORMALIZE
      modifies this`buffer, this`pos, this`cyclicBufferPos, this`cur
      ensures Buffered() && cur == old(cur) + 1 && pos == old(pos) + 1 && cyclicBufferPos == old(cyclicBufferPos) + 1
      ensures Available() == old(Available()) - 1
    {
      hide U32, Held;
      AvailableBytes();
      ghost var b, c := buffer, cur;
      NextStream(pos, readPos - cur);
      cyclicBufferPos := cyclicBufferPos + 1;
      buffer := buffer + 1;
      pos := pos + 1;
      cur := cur + 1;
      SameHeld(bufferBase[..], b, c, buffer, cur);
      AvailableBytes();
    }

    /** MOVE_POS. The index is that of the next place already. */
    method MovePos()
      requires Created() && Buffered() && Limited() && Available() > 0 && Indexed(Moved(Here()), lenLimit)
      modifies this`buffer, this`readPos, this`streamPos, this`streamEndWasReached, this`pos, this`posLimit, this`lenLimit
      modifies this`cyclicBufferPos, this`cur, bufferBase, hash, son
      ensures Valid() && cur == old(cur) + 1
    {
      hide HeadsOk, ForestOk, AllCovered, Indexed, U32, Held, Buffered;
      NextSlot(cur, cyclicBufferSize);
      Advance();
      if pos == posLimit {
        CheckLimits();
      }
    }

    /** Stepping on does not change what the buffer holds. */
    lemma {:induction false} SameHeld(block: seq<byte>, b: nat, c: nat, b1: nat, c1: nat)
      requires b1 == b + 1 && c1 == c + 1
      ensures forall j {:trigger Held(block, b1, input, c1, j)} :: Held(block, b, input, c, j) ==> Held(block, b1, input, c1, j)
    {
    }

    // ----- looking up -----

    lemma {:induction false} Mirrored()
      requires Created() && Buffered() && Limited()
      ensures Mirrors(bufferBase[..], buffer, input, cur, cyclicBufferSize, lenLimit)
      ensures cur + lenLimit <= |input| && buffer + lenLimit <= bufferBase.Length
    {
      hide Held, U32;
      AvailableBytes();
    }

    /** HASH4_CALC. */
    method HashBytes() returns (h2: nat, h3: nat, h: nat)
      requires Created() && Buffered() && Limited() && lenLimit >= 4
      ensures cur + 4 <= |input|
      ensures h2 == HashTwo(input, g, cur) && h3 == HashThree(input, g, cur) && h == HashFour(input, g, cur)
      ensures h2 < HASH2_SIZE && h3 < HASH3_SIZE && h <= g.mask
    {
      hide Xor, Held, Buffered, Limited;
      Mirrored();
      ByteHere(0);
      ByteHere(1);
      ByteHere(2);
      ByteHere(3);
      HashRange(input, g, cur);
      var c0, c1, c2, c3 := bufferBase[buffer], bufferBase[buffer + 1], bufferBase[buffer + 2], bufferBase[buffer + 3];
      var temp := Xor(g.crc[c0], c1);
      h2 := temp % HASH2_SIZE;
      h3 := Xor(temp, 0x100 * (c2 as int)) % HASH3_SIZE;
      h := Xor(Xor(temp, 0x100 * (c2 as int)), U32(0x20 * (g.crc[c3] as int))) % (g.mask + 1);
    }

    lemma {:induction false} ByteHere(k: nat)
      requires Mirrors(bufferBase[..], buffer, input, cur, cyclicBufferSize, lenLimit) && k < lenLimit && cyclicBufferSize > 0
      requires buffer + k < bufferBase.Length
      ensures cur + k < |input| && bufferBase[buffer + k] == input[cur + k]
    {
      assert Held(bufferBase[..], buffer, input, cur, cur + k);
    }

    /** for (; maxLen != lenLimit; maxLen++) if (cur[maxLen - delta] != cur[maxLen]) break; */
    method LengthFrom(delta: nat, start: nat) returns (maxLen: nat)
      requires cur + lenLimit <= |input| && Mirrors(bufferBase[..], buffer, input, cur, cyclicBufferSize, lenLimit)
      requires delta < cyclicBufferSize && delta <= cur && start <= Lcp(input, cur - delta, cur, lenLimit)
      ensures maxLen == Lcp(input, cur - delta, cur, lenLimit)
    {
      hide Lcp, Mirrors;
      maxLen := start;
      while maxLen != lenLimit
        invariant maxLen <= Lcp(input, cur - delta, cur, lenLimit)
      {
        var x, y := Peek(bufferBase, buffer, delta, maxLen, input, cur, cyclicBufferSize, lenLimit);
        if x != y {
          FirstDifference(input, cur - delta, cur, lenLimit, maxLen);
          break;
        }
        LonelyByte(input, cur - delta, cur, lenLimit, maxLen);
        maxLen := maxLen + 1;
      }
    }

    /** Does the position delta back begin with the current byte? */
    method SameFirst(delta: nat) returns (same: bool)
      requires 1 <= lenLimit && cur + lenLimit <= |input| && Mirrors(bufferBase[..], buffer, input, cur, cyclicBufferSize, lenLimit)
      requires delta < cyclicBufferSize ==> delta <= cur
      ensures same <==> delta < cyclicBufferSize && input[cur - delta] == input[cur]
    {
      hide Mirrors;
      same := false;
      if delta < cyclicBufferSize {
        var x, y := Peek(bufferBase, buffer, delta, 0, input, cur, cyclicBufferSize, lenLimit);
        same := x == y;
      }
    }

    /** The repeats that the 2-byte and the 3-byte hash point to. The test of the first byte is
        enough. */
    method ShortMatches(delta2: nat, delta3: nat, ghost v2: word, ghost v3: word) returns (distances: seq<Pair>, maxLen: nat)
      requires Created() && PlaceOk(Here()) && 4 <= lenLimit && cur + lenLimit <= |input|
      requires Mirrors(bufferBase[..], buffer, input, cur, cyclicBufferSize, lenLimit)
      requires v2 <= pos && v3 <= pos && delta2 == pos - v2 && delta3 == pos - v3
      requires HeadOk(input, g, Here(), v2, HashTwo(input, g, cur), false)
      requires HeadOk(input, g, Here(), v3, HashThree(input, g, cur), true)
      ensures AllFound(input, cur, lenLimit, cyclicBufferSize, distances) && Rising(distances, 1)
      ensures maxLen == Best(distances, 1) && 1 <= maxLen <= lenLimit
      ensures HashesReported(input, g, cur, lenLimit, cyclicBufferSize, distances)
    {
      hide Mirrors, Lcp, HashTwo, HashThree, Real, HeadOk, HashesReported;
      distances, maxLen := [], 1;
      var delta := delta2;
      HeadDistance(input, g, Here(), v2, HashTwo(input, g, cur), false);
      HeadDistance(input, g, Here(), v3, HashThree(input, g, cur), true);
      var same := SameFirst(delta2);
      if same {
        TwoAgree(input, g, Here(), v2, lenLimit);
        distances := [Pair(2, delta2 - 1)];
        maxLen := 2;
      }
      if delta2 != delta3 {
        same := SameFirst(delta3);
        if same {
          ThreeAgree(input, g, Here(), v3, lenLimit);
          maxLen := 3;
          distances := distances + [Pair(3, delta3 - 1)];
          delta := delta3;
        }
      }
      if distances != [] {
        maxLen := LengthFrom(delta, maxLen);
        NodeReal(input, cur - delta, cur, lenLimit);
        distances := distances[|distances| - 1 := Pair(maxLen, distances[|distances| - 1].dist)];
      }
      ShortReported(input, g, Here(), v2, v3, lenLimit, distances);
    }

    /** The three heads of the current position. */
    method PutHeads(h2: nat, h3: nat, h: nat)
      requires Created() && PlaceOk(Here()) && Indexed(Here(), lenLimit) && cur + 4 <= |input| && pos + 1 < WORD
      requires h2 == HashTwo(input, g, cur) && h3 == HashThree(input, g, cur) && h == HashFour(input, g, cur)
      requires h2 < HASH2_SIZE && h3 < HASH3_SIZE && h <= g.mask
      modifies hash
      ensures HeadsOk(input, g, Moved(Here()), hash[..])
      ensures forall k :: 0 <= k <= g.mask ==> Root(hash[..], k) == if k == h then pos else Root(old(hash[..]), k)
    {
      hide HeadOk, HashTwo, HashThree, HashFour, ForestOk, AllCovered;
      ghost var before := hash[..];
      hash[h2] := pos;
      hash[FIX3_HASH_SIZE + h3] := pos;
      hash[FIX4_HASH_SIZE + h] := pos;
      HeadsInserted(input, g, Here(), before, hash[..]);
    }

    /** The index after a search with limit cutValue. */
    ghost method Indexing(h0: seq<word>, s0: seq<word>, h: nat)
      requires Created() && PlaceOk(Here()) && |h0| == hash.Length && |s0| == son.Length && pos + 1 < WORD
      requires ForestOk(input, g, Here(), h0, s0, forest, lenLimit) && (complete ==> AllCovered(input, g, Here(), forest, lenLimit))
      requires HeadsOk(input, g, Moved(Here()), hash[..]) && 4 <= lenLimit && cur + lenLimit <= |input| && h == HashFour(input, g, cur)
      requires forall k :: 0 <= k <= g.mask ==> Root(hash[..], k) == if k == h then pos else Root(h0, k)
      requires son[..] == Relink(input, s0, Here(), Root(h0, h), Cell(cur, cyclicBufferSize) + 1, Cell(cur, cyclicBufferSize), lenLimit, cutValue)
      modifies this`forest, this`complete
      ensures Indexed(Moved(Here()), lenLimit)
      ensures |old(forest)| == g.mask + 1 && Older(old(forest)[h], cur)
      ensures complete <==> old(complete) && PathLength(input, old(forest)[h], cur, lenLimit) <= cutValue
    {
      hide HeadsOk, AllCovered, TreeOk, HashFour, Relink, Split, Prune, Search, Rep, Nodes, PathLength, Cell;
      ReadyToSearch(input, g, Here(), h0, s0, forest, lenLimit, h);
      ForestInserted(input, g, Here(), h0, s0, forest, lenLimit, lenLimit, cutValue, hash[..], son[..]);
      complete := complete && PathLength(input, forest[h], cur, lenLimit) <= cutValue;
      if complete {
        CoverInserted(input, g, Here(), h0, s0, forest, lenLimit, lenLimit, cutValue);
      }
      var (a, b) := Split(input, forest[h], cur, lenLimit, cutValue);
      forest := Pruned(forest[h := Node(cur, a, b)], Oldest(Here()));
    }

    /** What is not inserted, for want of four bytes. */
    ghost method Passing()
      requires Created() && PlaceOk(Here()) && Indexed(Here(), lenLimit) && pos + 1 < WORD && cur + lenLimit <= |input|
      requires cur + 4 > |input|
      modifies this`forest
      ensures Indexed(Moved(Here()), lenLimit)
    {
      hide HeadsOk, AllCovered, TreeOk, Prune, Search, Rep, Nodes;
      HeadsMoved(input, g, Here(), hash[..]);
      ForestMoved(input, g, Here(), hash[..], son[..], forest, lenLimit, lenLimit);
      if complete {
        CoverMoved(input, g, Here(), hash[..], son[..], forest, lenLimit, lenLimit);
      }
      forest := Pruned(forest, Oldest(Here()));
    }

    lemma {:induction false} IndexParts()
      requires Created() && PlaceOk(Here()) && Indexed(Here(), lenLimit)
      ensures HeadsOk(input, g, Here(), hash[..]) && ForestOk(input, g, Here(), hash[..], son[..], forest, lenLimit)
      ensures |forest| == g.mask + 1 && (complete ==> AllCovered(input, g, Here(), forest, lenLimit))
    {
      hide HeadsOk, AllCovered, TreeOk;
    }

    /** The search that is due will not be cut short. */
    ghost predicate SearchEnds()
      reads this`forest, this`cur, this`lenLimit
    {
      lenLimit >= 4 ==>
        && Created() && cur + lenLimit <= |input| && |forest| == g.mask + 1
        && var s := forest[HashFour(input, g, cur)];
        Older(s, cur) && PathLength(input, s, cur, lenLimit) <= cutValue
    }

    /** No search is ever cut short if cutValue is at least the length of the history. */
    lemma {:induction false} EnoughCut()
      requires Valid() && Available() > 0 && cutValue + 1 >= cyclicBufferSize
      ensures SearchEnds()
    {
      hide HeadsOk, AllCovered, Buffered, U32, Rep, Search, Nodes, PathLength, HashFour;
      Mirrored();
      if lenLimit >= 4 {
        var h := HashFour(input, g, cur);
        IndexParts();
        ReadyToSearch(input, g, Here(), hash[..], son[..], forest, lenLimit, h);
        RepOfTree(input, g, Here(), hash[..], son[..], forest, lenLimit, h);
        WindowPath(input, forest[h], Here(), lenLimit);
      }
    }

    lemma {:induction false} TooShort()
      requires Created() && Buffered() && Limited() && lenLimit < 4
      ensures cur + 4 > |input|
    {
      hide U32, Held;
      AvailableBytes();
    }

    /** The middle of Bt4_MatchFinder_GetMatches, where there are four bytes to hash. */
    method Lookup() returns (distances: seq<Pair>)
      requires Valid() && Available() > 0 && lenLimit >= 4
      modifies this`forest, this`complete, hash, son
      ensures Buffered() && Limited() && Indexed(Moved(Here()), lenLimit)
      ensures AllFound(input, cur, lenLimit, cyclicBufferSize, distances) && Rising(distances, 1)
      ensures HashesReported(input, g, cur, lenLimit, cyclicBufferSize, distances)
      ensures complete <==> old(complete && SearchEnds())
      ensures complete ==> forall q: nat :: cur < q + cyclicBufferSize && q < cur ==> Matched(input, q, cur, lenLimit, distances)
    {
      hide HeadsOk, ForestOk, AllCovered, HashTwo, HashThree, HashFour, Buffered, Mirrors, AllFound, Rising, U32, Indexed, HeadOk, HashesReported;
      Mirrored();
      var h2, h3, h := HashBytes();
      ghost var h0, s0, f0, w := hash[..], son[..], forest, Here();
      IndexParts();
      HeadsAt(input, g, w, h0, h2, h3);
      var delta2, delta3, curMatch := pos - hash[h2], pos - hash[FIX3_HASH_SIZE + h3], hash[FIX4_HASH_SIZE + h];
      PutHeads(h2, h3, h);
      var maxLen;
      distances, maxLen := ShortMatches(delta2, delta3, h0[h2], h0[FIX3_HASH_SIZE + h3]);
      ghost var short := distances;
      distances := SearchTree(curMatch, distances, maxLen, h0, h);
      StillReported(input, g, cur, lenLimit, cyclicBufferSize, short, distances);
      Indexing(h0, s0, h);
      if complete {
        NaiveAgrees(input, g, w, h0, s0, f0, lenLimit, cutValue, short, distances, h);
      }
    }

    /** Bt4_MatchFinder_GetMatches: all repeats reported are real and lie in the window, each longer
        than the one before; the last place with the same 2-byte hash and the last one with the same
        3-byte hash are reported at their full length if they begin with the current byte, and pairs
        of up to three bytes come from there only; and while no search has been cut short, no repeat
        of four bytes or more in the window is longer than the last one reported. */
    method GetMatches() returns (distances: seq<Pair>)
      requires Valid() && Available() > 0
      modifies this, hash, son, bufferBase
      ensures Valid() && cur == old(cur) + 1
      ensures AllFound(input, old(cur), old(lenLimit), cyclicBufferSize, distances) && Rising(distances, 1)
      ensures if old(lenLimit) < 4 then distances == []
              else HashesReported(input, g, old(cur), old(lenLimit), cyclicBufferSize, distances)
      ensures complete <==> old(complete && SearchEnds())
      ensures complete ==> forall q: nat :: old(cur) < q + cyclicBufferSize && q < old(cur) ==>
                                              Matched(input, q, old(cur), old(lenLimit), distances)
    {
      hide HeadsOk, ForestOk, AllCovered, HashFour, Buffered, Mirrors, AllFound, Rising, U32, Indexed, HashesReported, Matched;
      distances := [];
      Mirrored();
      ghost var c, n := cur, lenLimit;
      if lenLimit < 4 {
        TooShort();
        Passing();
        NothingFound(input, c, n, cyclicBufferSize);
        MovePos();
        return;
      }
      distances := Lookup();
      MovePos();
    }

    /** One round of Bt4_MatchFinder_Skip. */
    method SkipOne()
      requires Valid() && Available() > 0
      modifies this, hash, son, bufferBase
      ensures Valid() && cur == old(cur) + 1 && (complete <==> old(complete && SearchEnds()))
    {
      hide HeadsOk, ForestOk, AllCovered, HashTwo, HashThree, HashFour, Buffered, Mirrors, U32, Indexed, Relink, Searching, Rep, Search, Nodes;
      Mirrored();
      if lenLimit < 4 {
        TooShort();
        Passing();
        MovePos();
        return;
      }
      var h2, h3, h := HashBytes();
      ghost var h0, s0 := hash[..], son[..];
      IndexParts();
      var curMatch := hash[FIX4_HASH_SIZE + h];
      PutHeads(h2, h3, h);
      ReadyToSearch(input, g, Here(), h0, s0, forest, lenLimit, h);
      SkipMatchesSpec(lenLimit, curMatch, pos, bufferBase, buffer, son, cyclicBufferPos, cyclicBufferSize, cutValue,
        input, cur, forest[h]);
      Indexing(h0, s0, h);
      MovePos();
    }

    lemma {:induction false} MoreToCome()
      requires Valid() && cur < |input|
      ensures Available() > 0
    {
      hide Indexed, Held, U32;
      AvailableBytes();
    }

    /** Bt4_MatchFinder_Skip: inserts num positions without reporting what they repeat. */
    method Skip(num: nat)
      requires Valid() && 1 <= num && cur + num <= |input|
      modifies this, hash, son, bufferBase
      ensures Valid() && cur == old(cur) + num && (complete ==> old(complete))
      ensures cutValue + 1 >= cyclicBufferSize ==> complete == old(complete)
    {
      hide Valid, Held, U32;
      var n := num;
      while n != 0
        invariant 0 <= n <= num && Valid() && cur == old(cur) + num - n && cur + n <= |input| && (complete ==> old(complete))
        invariant cutValue + 1 >= cyclicBufferSize ==> complete == old(complete)
        decreases n
      {
        MoreToCome();
        if cutValue + 1 >= cyclicBufferSize {
          EnoughCut();
        }
        SkipOne();
        n := n - 1;
      }
    }

    /** What is available, and that it is all there is if it is less than keepSizeAfter. */
    lemma {:induction false} Ahead()
      requires Valid()
      ensures cur + Available() <= |input| && keepSizeAfter >= matchMaxLen
      ensures cur + Available() == |input| || Available() > keepSizeAfter
    {
      hide Indexed, Held, U32;
      AvailableBytes();
    }

    lemma {:induction false} LimitFacts()
      requires Valid()
      ensures lenLimit <= matchMaxLen && lenLimit <= Available()
    {
      hide Indexed, Held, U32;
    }

    /** MatchFinder_GetIndexByte. */
    method GetIndexByte(index: int) returns (b: byte)
      requires Valid() && 0 <= cur + index < |input| && 0 <= keepSizeBefore + index && index <= keepSizeAfter
      ensures b == input[cur + index]
    {
      hide Indexed, U32;
      AvailableBytes();
      assert Held(bufferBase[..], buffer, input, cur, cur + index);
      b := bufferBase[buffer + index];
    }

    /** The end of GetMatches: SkipMatchesSpec if nothing longer can be found, or else
        GetMatchesSpec1. */
    method SearchTree(curMatch: word, short: seq<Pair>, maxLen: nat, ghost h0: seq<word>, ghost h: nat) returns (distances: seq<Pair>)
      requires Created() && PlaceOk(Here()) && Limited() && 4 <= lenLimit && cur + lenLimit <= |input| && h <= g.mask
      requires Mirrors(bufferBase[..], buffer, input, cur, cyclicBufferSize, lenLimit)
      requires |h0| == hash.Length && ForestOk(input, g, Here(), h0, son[..], forest, lenLimit) && curMatch == Root(h0, h)
      requires AllFound(input, cur, lenLimit, cyclicBufferSize, short) && Rising(short, 1) && maxLen == Best(short, 1) <= lenLimit
      modifies son
      ensures Older(forest[h], cur)
      ensures son[..] == Relink(input, old(son[..]), Here(), curMatch, Cell(cur, cyclicBufferSize) + 1, Cell(cur, cyclicBufferSize), lenLimit, cutValue)
      ensures AllFound(input, cur, lenLimit, cyclicBufferSize, distances) && Rising(distances, 1)
      ensures Searched(input, Here(), forest[h], lenLimit, cutValue, short, distances)
      ensures short <= distances && forall k :: |short| <= k < |distances| ==> distances[k].len > 3
    {
      hide HeadsOk, ForestOk, AllCovered, Mirrors, AllFound, Rising, Relink, Searching, Search, Rep, Nodes, Walk;
      ForestSize(input, g, Here(), h0, son[..], forest, lenLimit);
      ReadyToSearch(input, g, Here(), h0, son[..], forest, lenLimit, h);
      ghost var s := forest[h];
      if maxLen == lenLimit {
        SkipMatchesSpec(lenLimit, curMatch, pos, bufferBase, buffer, son, cyclicBufferPos, cyclicBufferSize, cutValue,
          input, cur, s);
        return short;
      }
      var longer := if maxLen < 3 then 3 else maxLen;
      var more := GetMatchesSpec1(lenLimit, curMatch, pos, bufferBase, buffer, son, cyclicBufferPos, cyclicBufferSize, cutValue,
        longer, input, cur, s);
      WalkReal(input, s, cur, lenLimit, cutValue, longer);
      RepOfTree(input, g, Here(), h0, old(son[..]), forest, lenLimit, h);
      Joined(input, s, Here(), lenLimit, short, more, longer);
      distances := short + more;
      LongerThan(short, more, longer);
    }
  }

  lemma {:induction false} LongerThan(short: seq<Pair>, more: seq<Pair>, n: nat)
    requires Rising(more, n)
    ensures forall k :: |short| <= k < |short + more| ==> (short + more)[k].len > n
  {
    forall k | |short| <= k < |short + more|
      ensures (short + more)[k].len > n
    {
      assert (short + more)[k] == more[k - |short|];
    }
  }

  lemma {:induction false} WindowPath(t: seq<byte>, s: Tree, w: Place, n: nat)
    requires w.cur + n <= |t| && Older(s, w.cur) && Search(t, s, n) && InWindow(s, w) && w.size > 0
    ensures PathLength(t, s, w.cur, n) < w.size
  {
    hide Lcp, Below;
    PathBound(t, s, w.cur, n, if w.cur + 1 > w.size then w.cur + 1 - w.size else 0);
    if s.Node? {
      assert s.at in Nodes(s);
    }
  }

  lemma {:induction false} RepOfTree(t: seq<byte>, g: Hashing, w: Place, hash: seq<word>, son: seq<word>, forest: seq<Tree>, n: nat, h: nat)
    requires HashingOk(g) && PlaceOk(w) && |hash| == FIX4_HASH_SIZE + g.mask + 1 && |son| == 2 * w.size && h <= g.mask
    requires ForestOk(t, g, w, hash, son, forest, n)
    ensures InWindow(forest[h], w)
  {
    hide Rep, Search, HashFour;
    assert TreeOk(t, g, son, w, Root(hash, h), forest[h], h, n);
    RepInWindow(son, w, Root(hash, h), forest[h]);
  }

  lemma {:induction false} Joined(t: seq<byte>, s: Tree, w: Place, n: nat, short: seq<Pair>, more: seq<Pair>, longer: nat)
    requires InWindow(s, w) && AllReal(t, s, w.cur, n, more) && Rising(more, longer)
    requires AllFound(t, w.cur, n, w.size, short) && Rising(short, 1) && Best(short, 1) <= longer
    ensures AllFound(t, w.cur, n, w.size, short + more) && Rising(short + more, 1)
    ensures Best(short + more, 1) >= Best(short, 1)
  {
    hide Real, Nodes;
    forall k | 0 <= k < |more| ensures Real(t, w.cur, n, more[k]) && more[k].dist + 1 < w.size {
      assert w.cur - 1 - more[k].dist in Nodes(s);
    }
    forall k | 0 <= k < |short| ensures short[k].len <= longer {
      assert short[k].len <= Best(short, 1);
    }
  }

  lemma {:induction false} HeadsAt(t: seq<byte>, g: Hashing, w: Place, hash: seq<word>, h2: nat, h3: nat)
    requires HashingOk(g) && PlaceOk(w) && |hash| == FIX4_HASH_SIZE + g.mask + 1 && HeadsOk(t, g, w, hash)
    requires h2 < HASH2_SIZE && h3 < HASH3_SIZE
    ensures HeadOk(t, g, w, hash[h2], h2, false) && hash[h2] <= w.pos
    ensures HeadOk(t, g, w, hash[FIX3_HASH_SIZE + h3], h3, true) && hash[FIX3_HASH_SIZE + h3] <= w.pos
  {
    assert HeadOk(t, g, w, hash[h2], Own(h2), h2 >= FIX3_HASH_SIZE);
    var k := FIX3_HASH_SIZE + h3;
    assert HeadOk(t, g, w, hash[k], Own(k), k >= FIX3_HASH_SIZE);
  }

  lemma {:induction false} NothingFound(t: seq<byte>, c: nat, n: nat, size: nat)
    requires c + n <= |t| && n < 4
    ensures AllFound(t, c, n, size, []) && Rising([], 1)
    ensures forall q: nat :: c < q + size && q < c ==> Matched(t, q, c, n, [])
  {
    hide Lcp;
  }

  /** The result of a complete search against the naive one. */
  lemma {:induction false} NaiveAgrees(t: seq<byte>, g: Hashing, w: Place, hash: seq<word>, son: seq<word>, forest: seq<Tree>,
                                       n: nat, cut: nat, short: seq<Pair>, found: seq<Pair>, h: nat)
    requires HashingOk(g) && PlaceOk(w) && |hash| == FIX4_HASH_SIZE + g.mask + 1 && |son| == 2 * w.size
    requires ForestOk(t, g, w, hash, son, forest, n) && AllCovered(t, g, w, forest, n) && 4 <= n && w.cur + n <= |t|
    requires h == HashFour(t, g, w.cur) && Older(forest[h], w.cur) && PathLength(t, forest[h], w.cur, n) <= cut
    requires Searched(t, w, forest[h], n, cut, short, found)
    ensures forall q: nat :: w.cur < q + w.size && q < w.cur ==> Matched(t, q, w.cur, n, found)
  {
    hide Lcp, HashFour, PathLength, Walk, ForestOk, AllCovered;
    var longer := if Best(short, 1) < 3 then 3 else Best(short, 1);
    forall q: nat | w.cur < q + w.size && q < w.cur
      ensures Matched(t, q, w.cur, n, found)
    {
      if Lcp(t, q, w.cur, n) >= 4 {
        AgreesWithNaive(t, g, w, hash, son, forest, n, cut, longer, q);
      }
    }
  }

  /** found is short continued by what the tree gives, unless nothing can be longer than short. */
  ghost predicate Searched(t: seq<byte>, w: Place, s: Tree, n: nat, cut: nat, short: seq<Pair>, found: seq<Pair>) {
    && w.cur + n <= |t| && Older(s, w.cur)
    && var m := Best(short, 1);
    if m == n then found == short else m < n && found == short + Walk(t, s, w.cur, n, cut, if m < 3 then 3 else m)
  }

  /** Some pair is as long as the repeat at q, if that has four bytes. */
  ghost predicate Matched(t: seq<byte>, q: nat, c: nat, n: nat, found: seq<Pair>) {
    q < c && c + n <= |t| && (Lcp(t, q, c, n) >= 4 ==> Lcp(t, q, c, n) <= Best(found, 0))
  }

  /** Every pair is a repeat that begins in the window. */
  ghost predicate AllFound(t: seq<byte>, c: nat, n: nat, size: nat, found: seq<Pair>) {
    forall k :: 0 <= k < |found| ==> Real(t, c, n, found[k]) && found[k].dist + 1 < size
  }

  lemma {:induction false} HeadDistance(t: seq<byte>, g: Hashing, w: Place, v: word, h: nat, three: bool)
    requires HashingOk(g) && PlaceOk(w) && HeadOk(t, g, w, v, h, three) && v <= w.pos
    ensures w.pos - v < w.size ==> 0 < w.pos - v <= w.cur
  {
  }

  lemma {:induction false} TwoAgree(t: seq<byte>, g: Hashing, w: Place, v: word, n: nat)
    requires HashingOk(g) && PlaceOk(w) && 4 <= n && w.cur + n <= |t|
    requires v <= w.pos && w.pos - v < w.size && HeadOk(t, g, w, v, HashTwo(t, g, w.cur), false)
    requires w.pos - v <= w.cur && t[w.cur - (w.pos - v)] == t[w.cur]
    ensures var i := w.cur - (w.pos - v); i < w.cur && Lcp(t, i, w.cur, n) >= 2 && Real(t, w.cur, n, Pair(2, w.pos - v - 1))
  {
    hide Hash2, Lcp;
    var i := w.cur - (w.pos - v);
    SecondByte(g, t[i], t[i + 1], t[w.cur + 1]);
    assert At(t, i, 0) == At(t, w.cur, 0) && At(t, i, 1) == At(t, w.cur, 1);
    LcpIs(t, i, w.cur, n, 2);
  }

  lemma {:induction false} ThreeAgree(t: seq<byte>, g: Hashing, w: Place, v: word, n: nat)
    requires HashingOk(g) && PlaceOk(w) && 4 <= n && w.cur + n <= |t|
    requires v <= w.pos && w.pos - v < w.size && HeadOk(t, g, w, v, HashThree(t, g, w.cur), true)
    requires w.pos - v <= w.cur && t[w.cur - (w.pos - v)] == t[w.cur]
    ensures var i := w.cur - (w.pos - v); i < w.cur && Lcp(t, i, w.cur, n) >= 3
  {
    hide Hash3, Lcp;
    var i := w.cur - (w.pos - v);
    ThirdByte(g, t[i], t[i + 1], t[i + 2], t[w.cur + 1], t[w.cur + 2]);
    assert At(t, i, 0) == At(t, w.cur, 0) && At(t, i, 1) == At(t, w.cur, 1) && At(t, i, 2) == At(t, w.cur, 2);
    LcpIs(t, i, w.cur, n, 3);
  }

  // ----- what the two smaller hashes report -----

  /** q is the last position before c with the value h of the 3-byte or of the 2-byte hash. */
  ghost predicate LastWith(t: seq<byte>, g: Hashing, q: nat, c: nat, h: nat, three: bool)
    requires HashingOk(g)
  {
    q < c && HasHash(t, g, q, h, three) && forall p: nat :: q < p < c ==> !HasHash(t, g, p, h, three)
  }

  /** q is the last position before c with the same 3-byte or 2-byte hash, and lies in the window. */
  ghost predicate LastAlike(t: seq<byte>, g: Hashing, q: nat, c: nat, size: nat, three: bool)
    requires HashingOk(g) && c + 4 <= |t|
  {
    c < q + size && LastWith(t, g, q, c, if three then HashThree(t, g, c) else HashTwo(t, g, c), three)
  }

  /** The whole repeat at q has m bytes at least and is among those found, none of which is shorter
      than it at the end. */
  ghost predicate Reported(t: seq<byte>, q: nat, c: nat, n: nat, m: nat, found: seq<Pair>) {
    && q < c && c + n <= |t|
    && m <= Lcp(t, q, c, n) <= Best(found, 1) && Pair(Lcp(t, q, c, n), c - q - 1) in found
  }

  ghost predicate HashesReported(t: seq<byte>, g: Hashing, c: nat, n: nat, size: nat, found: seq<Pair>)
    requires HashingOk(g)
  {
    && 4 <= n && c + n <= |t|
    && (forall q: nat, three: bool :: LastAlike(t, g, q, c, size, three) && t[q] == t[c] ==>
                                        Reported(t, q, c, n, if three then 3 else 2, found))
    && (forall k :: 0 <= k < |found| && found[k].len <= 3 ==> FromHash(t, g, c, size, found[k]))
  }

  /** A pair that one of the two smaller hashes points to. */
  ghost predicate FromHash(t: seq<byte>, g: Hashing, c: nat, size: nat, p: Pair)
    requires HashingOk(g) && c + 4 <= |t|
  {
    p.dist < c && (LastAlike(t, g, c - 1 - p.dist, c, size, false) || LastAlike(t, g, c - 1 - p.dist, c, size, true))
  }

  lemma {:induction false} StillReported(t: seq<byte>, g: Hashing, c: nat, n: nat, size: nat, short: seq<Pair>, found: seq<Pair>)
    requires HashingOk(g) && HashesReported(t, g, c, n, size, short) && short <= found && Rising(found, 1)
    requires forall k :: |short| <= k < |found| ==> found[k].len > 3
    ensures HashesReported(t, g, c, n, size, found)
  {
    hide Lcp, HashTwo, HashThree, FromHash;
    forall k | 0 <= k < |found| && found[k].len <= 3
      ensures FromHash(t, g, c, size, found[k])
    {
      assert found[k] == short[k];
    }
    forall q: nat, three: bool | LastAlike(t, g, q, c, size, three) && t[q] == t[c]
      ensures Reported(t, q, c, n, if three then 3 else 2, found)
    {
      assert Reported(t, q, c, n, if three then 3 else 2, short);
      assert Best(short, 1) <= Best(found, 1);
    }
  }

  /** Such a position is the head. */
  lemma {:induction false} LastIsHead(t: seq<byte>, g: Hashing, w: Place, v: word, q: nat, three: bool)
    requires HashingOk(g) && PlaceOk(w) && w.cur + 4 <= |t| && v <= w.pos
    requires HeadOk(t, g, w, v, if three then HashThree(t, g, w.cur) else HashTwo(t, g, w.cur), three)
    requires LastAlike(t, g, q, w.cur, w.size, three)
    ensures w.pos - v < w.size && w.pos - v == w.cur - q
  {
    hide HasHash, HashTwo, HashThree;
    var h := if three then HashThree(t, g, w.cur) else HashTwo(t, g, w.cur);
    assert LastWith(t, g, q, w.cur, h, three);
    assert HasHash(t, g, w.cur - (w.pos - v), h, three);
  }

  /** And the head of the window is such a position. */
  lemma {:induction false} HeadIsLast(t: seq<byte>, g: Hashing, w: Place, v: word, three: bool)
    requires HashingOk(g) && PlaceOk(w) && w.cur + 4 <= |t| && v <= w.pos && w.pos - v < w.size
    requires HeadOk(t, g, w, v, if three then HashThree(t, g, w.cur) else HashTwo(t, g, w.cur), three)
    ensures 0 < w.pos - v <= w.cur && LastAlike(t, g, w.cur - (w.pos - v), w.cur, w.size, three)
  {
    hide HasHash, HashTwo, HashThree;
    var h := if three then HashThree(t, g, w.cur) else HashTwo(t, g, w.cur);
    var q: nat := w.cur - (w.pos - v);
    forall p: nat | q < p < w.cur
      ensures !HasHash(t, g, p, h, three)
    {
    }
    assert LastWith(t, g, q, w.cur, h, three);
  }

  /** The head of a hash points to a place that begins with the current byte. */
  ghost predicate Begins(t: seq<byte>, w: Place, v: word)
    requires w.cur < |t|
  {
    v <= w.pos && w.pos - v < w.size && w.pos - v <= w.cur && t[w.cur - (w.pos - v)] == t[w.cur]
  }

  /** A nearer place with the same two bytes has a different third byte. */
  lemma {:induction false} OnlyTwo(t: seq<byte>, g: Hashing, w: Place, v2: word, v3: word, n: nat)
    requires HashingOk(g) && PlaceOk(w) && 4 <= n && w.cur + n <= |t| && v2 != v3
    requires Begins(t, w, v2) && HeadOk(t, g, w, v2, HashTwo(t, g, w.cur), false)
    requires Begins(t, w, v3) && HeadOk(t, g, w, v3, HashThree(t, g, w.cur), true)
    ensures w.pos - v2 > 0 && Lcp(t, w.cur - (w.pos - v2), w.cur, n) == 2
  {
    hide Lcp, HasHash, HashTwo, HashThree;
    TwoAgree(t, g, w, v2, n);
    ThreeAgree(t, g, w, v3, n);
    SameHashes(t, g, w.cur - (w.pos - v2), w.cur, n);
    SameHashes(t, g, w.cur - (w.pos - v3), w.cur, n);
  }

  /** Places with the same bytes have the same hashes. */
  lemma {:induction false} SameHashes(t: seq<byte>, g: Hashing, q: nat, c: nat, n: nat)
    requires HashingOk(g) && 4 <= n && q < c && c + n <= |t|
    ensures Lcp(t, q, c, n) >= 2 ==> HasHash(t, g, q, HashTwo(t, g, c), false)
    ensures Lcp(t, q, c, n) >= 3 ==> HasHash(t, g, q, HashThree(t, g, c), true)
  {
    hide Lcp, Hash2, Hash3;
    LcpAgrees(t, q, c, n);
    assert At(t, q, 0) == t[q] && At(t, q, 1) == t[q + 1] && At(t, q, 2) == t[q + 2];
    assert At(t, c, 0) == t[c] && At(t, c, 1) == t[c + 1] && At(t, c, 2) == t[c + 2];
  }

  lemma {:induction false} ShortReported(t: seq<byte>, g: Hashing, w: Place, v2: word, v3: word, n: nat, found: seq<Pair>)
    requires HashingOk(g) && PlaceOk(w) && 4 <= n && w.cur + n <= |t| && v2 <= w.pos && v3 <= w.pos
    requires HeadOk(t, g, w, v2, HashTwo(t, g, w.cur), false) && HeadOk(t, g, w, v3, HashThree(t, g, w.cur), true)
    requires var d2, d3 := w.pos - v2, w.pos - v3;
             var two, three := Begins(t, w, v2), v2 != v3 && Begins(t, w, v3);
             found == (if two then [Pair(if three then 2 else Lcp(t, w.cur - d2, w.cur, n), d2 - 1)] else [])
                      + (if three then [Pair(Lcp(t, w.cur - d3, w.cur, n), d3 - 1)] else [])
    ensures HashesReported(t, g, w.cur, n, w.size, found)
  {
    hide Lcp, HashTwo, HashThree, HeadOk;
    if Begins(t, w, v2) {
      TwoAgree(t, g, w, v2, n);
      if v2 != v3 && Begins(t, w, v3) {
        OnlyTwo(t, g, w, v2, v3, n);
      }
    }
    if Begins(t, w, v3) {
      ThreeAgree(t, g, w, v3, n);
    }
    forall k | 0 <= k < |found| && found[k].len <= 3
      ensures FromHash(t, g, w.cur, w.size, found[k])
    {
      if found[k].dist == w.pos - v2 - 1 && Begins(t, w, v2) {
        HeadIsLast(t, g, w, v2, false);
      } else {
        HeadIsLast(t, g, w, v3, true);
      }
    }
    forall q: nat, three: bool | LastAlike(t, g, q, w.cur, w.size, three) && t[q] == t[w.cur]
      ensures Reported(t, q, w.cur, n, if three then 3 else 2, found)
    {
      LastIsHead(t, g, w, if three then v3 else v2, q, three);
    }
  }

  lemma {:induction false} U32Small(x: word)
    ensures U32(x) == x
  {
  }

  /** No position, no head, no node. */
  lemma {:induction false} EmptyForest(t: seq<byte>, g: Hashing, w: Place, hash: seq<word>, son: seq<word>, forest: seq<Tree>, n: nat)
    requires HashingOk(g) && PlaceOk(w) && |hash| == FIX4_HASH_SIZE + g.mask + 1 && |son| == 2 * w.size
    requires w.cur == 0 && |forest| == g.mask + 1
    requires forall k :: 0 <= k < |hash| ==> hash[k] == EMPTY_HASH_VALUE
    requires forall h :: 0 <= h < |forest| ==> forest[h] == Leaf
    ensures HeadsOk(t, g, w, hash) && ForestOk(t, g, w, hash, son, forest, n) && AllCovered(t, g, w, forest, n)
  {
    hide HashFour, HashTwo, HashThree, Covers;
  }

  lemma {:induction false} NextSlot(cur: nat, size: nat)
    requires size > 0
    ensures (cur + 1) % size == if cur % size + 1 == size then 0 else cur % size + 1
  {
    if size > 1 {
      ModStep(cur, 1, size);
    }
  }

  lemma {:induction false} NextStream(pos: word, a: nat)
    requires a > 0
    ensures U32(pos + a) == U32(pos + 1 + (a - 1))
  {
  }

  lemma {:induction false} ReducedStream(pos: word, a: nat, sub: word)
    requires sub <= pos
    ensures U32(U32(pos + a) - sub) == U32(pos - sub + a)
  {
  }

  lemma {:induction false} MoreAvailable(pos: word, a: nat, n: nat)
    ensures U32(U32(pos + a) + n) == U32(pos + (a + n))
  {
  }
}
