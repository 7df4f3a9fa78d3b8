/**
 * The encoder in fast mode: GetOptimumFast chooses packets from what the match finder reports and
 * from the recent distances. Whatever it chooses is truthful, so that the whole encoder, closed by
 * Flush, reproduces its input.
 */
module FastMode {
  import opened Bytes
  import opened Packets
  import opened SuffixTree
  import opened LzHash
  import opened Encoder
  import opened MatchFinder
  import Suffixes
  import opened Stream

  const NUM_OPTS := 0x1000

  /** A distance is better by far: (bigDist >> 7) > smallDist. */
  predicate ChangePair(smallDist: nat, bigDist: nat) {
    bigDist / 0x80 > smallDist
  }

  class Coder {
    const enc: LzmaEnc
    const finder: Finder
    const numFastBytes: nat
    const writeEndMark: bool

    /** How far the match finder is ahead of the coder; what it found at its last place, and how
        many bytes were available there. */
    var additionalOffset: nat
    var longestMatchLength: nat
    var matches: seq<Pair>
    var numAvail: nat
    var finished: bool

    ghost predicate Linked() {
      && finder.input == enc.text && enc.fastPos as object != finder.bufferBase
      && 1 <= enc.dicSize && finder.cyclicBufferSize == enc.dicSize + 1 && finder.matchMaxLen == numFastBytes
      && 5 <= numFastBytes <= LEN_MAX && finder.keepSizeAfter == numFastBytes + LEN_MAX
      && finder.keepSizeBefore == enc.dicSize + NUM_OPTS + 1
    }

    ghost function Repr(): set<object> {
      {this, enc, enc.rc, enc.fastPos, finder, finder.hash, finder.son, finder.bufferBase}
    }

    /** Coder and match finder work on the same text, the latter additionalOffset bytes ahead. */
    ghost predicate InStep()
      reads Repr(), this
    {
      && Linked() && enc.Valid() && finder.Valid() && finder.cur == enc.nowPos64 + additionalOffset
      && |enc.reps| == 4 && forall i :: 0 <= i < 4 ==> enc.reps[i] < enc.dicSize
    }

    /** What was found at p: repeats in the dictionary, the last of which goes on for mainLen bytes. */
    ghost predicate Candidates(p: nat, mainLen: nat)
      reads this`matches, this`numAvail
    {
      && 1 <= numAvail && p + numAvail <= |enc.text| && (p + numAvail == |enc.text| || numAvail > LEN_MAX)
      && (forall k :: 0 <= k < |matches| ==>
                        && 2 <= matches[k].len <= LEN_MAX && matches[k].dist < enc.dicSize
                        && RepeatsAt(enc.text, p, matches[k].dist, matches[k].len))
      && (if matches == [] then mainLen == 0
          else 2 <= mainLen <= LEN_MAX && RepeatsAt(enc.text, p, matches[|matches| - 1].dist, mainLen))
    }

    /** Between two packets. */
    ghost predicate Valid()
      reads Repr(), this
    {
      && InStep() && additionalOffset <= 1
      && (additionalOffset == 1 ==> Candidates(enc.nowPos64, longestMatchLength))
    }

    /** LzmaEnc_SetProps and LzmaEnc_AllocAndInit, in fast mode with binary trees. */
    constructor (pr: Props, dicSize: nat, text: seq<byte>, g: Hashing, numFastBytes: nat, cutValue: nat, writeEndMark: bool)
      requires ValidProps(pr) && 1 <= dicSize <= 0x4000_0000 && HashingOk(g) && 5 <= numFastBytes <= LEN_MAX
      ensures Valid() && fresh(Repr()) && enc.text == text && enc.pr == pr && enc.dicSize == dicSize
      ensures enc.nowPos64 == 0 && additionalOffset == 0 && !finished && this.writeEndMark == writeEndMark
    {
      hide Finder.Valid, LzmaEnc.Valid;
      var e := new LzmaEnc(pr, dicSize, text);
      var reserve := dicSize / 2 + (NUM_OPTS + numFastBytes + LEN_MAX) / 2 + 0x8_0000;
      var f := new Finder(text, g, dicSize, NUM_OPTS, numFastBytes, LEN_MAX, reserve, cutValue);
      enc, finder := e, f;
      this.numFastBytes, this.writeEndMark := numFastBytes, writeEndMark;
      additionalOffset, longestMatchLength, matches, numAvail, finished := 0, 0, [], 0, false;
    }

    /** MovePos. */
    method MovePos(num: nat)
      requires Linked() && finder.Valid() && finder.cur + num <= |finder.input|
      modifies this`additionalOffset, finder, finder.hash, finder.son, finder.bufferBase
      ensures finder.Valid() && finder.cur == old(finder.cur) + num && additionalOffset == old(additionalOffset) + num
    {
      if num != 0 {
        additionalOffset := additionalOffset + num;
        finder.Skip(num);
      }
    }

    /** data[k], with data one byte before the match finder's place. */
    method DataAt(k: int) returns (b: byte)
      requires Linked() && finder.Valid() && 0 <= finder.cur - 1 + k < |finder.input|
      requires -(enc.dicSize as int) <= k <= LEN_MAX
      ensures b == enc.text[finder.cur - 1 + k]
    {
      b := finder.GetIndexByte(k - 1);
    }

    /** for (; len < limit && data[len] == data2[len]; len++); with data2 dist + 1 bytes back. */
    method RunLength(dist: nat, start: nat, limit: nat) returns (len: nat)
      requires Linked() && finder.Valid() && limit <= LEN_MAX && dist < enc.dicSize
      requires 1 <= finder.cur && finder.cur - 1 + limit <= |enc.text| && RepeatsAt(enc.text, finder.cur - 1, dist, start)
      ensures start <= len && (len <= limit || len == start) && RepeatsAt(enc.text, finder.cur - 1, dist, len)
      ensures len < limit ==> !RepeatsAt(enc.text, finder.cur - 1, dist, len + 1)
    {
      hide Finder.Valid;
      len := start;
      while len < limit
        invariant start <= len && (len <= limit || len == start) && RepeatsAt(enc.text, finder.cur - 1, dist, len)
      {
        var x := DataAt(len);
        var y := DataAt(len - (dist + 1));
        if x != y {
          assert enc.text[finder.cur - 1 + len] != enc.text[finder.cur - 1 + len - dist - 1];
          break;
        }
        len := len + 1;
      }
    }

    /** How long the text at data repeats what lies dist + 1 bytes before; 0 if less than two bytes
        do. Bytes behind limit are not looked at. */
    method RepLength(dist: nat, limit: nat) returns (len: nat)
      requires Linked() && finder.Valid() && limit <= LEN_MAX && dist < enc.dicSize && dist + 1 < finder.cur
      requires finder.cur + 1 <= |enc.text| && finder.cur - 1 + limit <= |enc.text|
      ensures len > 0 ==> 2 <= len && (len <= limit || len == 2) && RepeatsAt(enc.text, finder.cur - 1, dist, len)
      ensures len == 0 ==> !RepeatsAt(enc.text, finder.cur - 1, dist, 2)
      ensures 0 < len < limit ==> !RepeatsAt(enc.text, finder.cur - 1, dist, len + 1)
    {
      hide Finder.Valid;
      var a0 := DataAt(0);
      var b0 := DataAt(-(dist as int) - 1);
      var a1 := DataAt(1);
      var b1 := DataAt(-(dist as int));
      if a0 != b0 || a1 != b1 {
        assert enc.text[finder.cur - 1] == a0 && enc.text[finder.cur] == a1;
        assert enc.text[finder.cur - 1 - dist - 1] == b0 && enc.text[finder.cur - dist - 1] == b1;
        return 0;
      }
      len := RunLength(dist, 2, limit);
    }

    /** ReadMatchDistances. */
    method ReadMatchDistances() returns (lenRes: nat)
      requires Linked() && finder.Valid() && finder.cur < |finder.input|
      modifies this`additionalOffset, this`matches, this`numAvail, finder, finder.hash, finder.son, finder.bufferBase
      ensures finder.Valid() && finder.cur == old(finder.cur) + 1 && additionalOffset == old(additionalOffset) + 1
      ensures Candidates(old(finder.cur), lenRes)
    {
      hide AllFound, Rising, Real, Finder.Valid, RepeatsAt;
      finder.MoreToCome();
      finder.Ahead();
      lenRes := 0;
      numAvail := finder.Available();
      ghost var p, n := finder.cur, finder.lenLimit;
      finder.LimitFacts();
      matches := finder.GetMatches();
      FoundRepeats(enc.text, p, n, finder.cyclicBufferSize, matches);
      if |matches| > 0 {
        lenRes := matches[|matches| - 1].len;
        if lenRes == numFastBytes {
          var dist := matches[|matches| - 1].dist;
          lenRes := RunLength(dist, lenRes, if numAvail > LEN_MAX then LEN_MAX else numAvail);
        }
      }
      additionalOffset := additionalOffset + 1;
    }

    // ----- GetOptimumFast -----

    ghost predicate RepsUsable(p: nat)
      reads enc`reps
    {
      |enc.reps| == 4 && forall i :: 0 <= i < 4 ==> enc.reps[i] < enc.dicSize && enc.reps[i] < p
    }

    /** n bytes at p repeat what lies at a recent distance. */
    ghost predicate SomeRep(p: nat, n: nat)
      requires |enc.reps| == 4
      reads enc`reps
    {
      exists i :: 0 <= i < 4 && RepeatsAt(enc.text, p, enc.reps[i], n)
    }

    /** The longest repeat at a recent distance, or the first one of at least numFastBytes bytes. */
    method BestRep(limit: nat) returns (fast: bool, repIndex: nat, repLen: nat)
      requires Linked() && finder.Valid() && 2 <= limit <= LEN_MAX && 1 <= finder.cur && RepsUsable(finder.cur - 1)
      requires finder.cur - 1 + limit <= |enc.text|
      ensures repIndex < 4 && |enc.reps| == 4
      ensures repLen > 0 ==> 2 <= repLen <= limit && RepeatsAt(enc.text, finder.cur - 1, enc.reps[repIndex], repLen)
      ensures fast ==> repLen >= numFastBytes
      ensures !fast && numFastBytes <= limit ==> !SomeRep(finder.cur - 1, numFastBytes)
      ensures !fast && repLen == 0 ==> !SomeRep(finder.cur - 1, 2)
    {
      hide Finder.Valid, RepeatsAt;
      fast, repIndex, repLen := false, 0, 0;
      var i := 0;
      while i < 4
        invariant 0 <= i <= 4 && repIndex < 4
        invariant repLen > 0 ==> 2 <= repLen <= limit && RepeatsAt(enc.text, finder.cur - 1, enc.reps[repIndex], repLen)
        invariant numFastBytes <= limit ==>
                    forall j :: 0 <= j < i ==> !RepeatsAt(enc.text, finder.cur - 1, enc.reps[j], numFastBytes)
        invariant repLen == 0 ==> forall j :: 0 <= j < i ==> !RepeatsAt(enc.text, finder.cur - 1, enc.reps[j], 2)
      {
        var len := RepLength(enc.reps[i], limit);
        if len > 0 {
          if len >= numFastBytes {
            return true, i, len;
          }
          if len > repLen {
            repIndex, repLen := i, len;
          }
        }
        TooShort(finder.cur - 1, enc.reps[i], len, limit, numFastBytes);
        i := i + 1;
      }
    }

    /** A repeat that ends before n bytes does not have n bytes. */
    lemma {:induction false} TooShort(p: nat, dist: nat, len: nat, limit: nat, n: nat)
      requires len == 0 ==> !RepeatsAt(enc.text, p, dist, 2)
      requires 0 < len < limit ==> !RepeatsAt(enc.text, p, dist, len + 1)
      ensures 2 <= n <= limit && len < n ==> !RepeatsAt(enc.text, p, dist, n)
    {
    }

    /** Steps back to a shorter repeat as long as that is only one byte shorter and much nearer; a
        far repeat of two bytes is dropped. */
    method BestMain(ghost p: nat, mainLen0: nat) returns (mainLen: nat, mainDist: nat)
      requires Linked() && Candidates(p, mainLen0)
      ensures mainLen >= 2 ==>
                mainLen <= LEN_MAX && mainLen <= mainLen0 && mainDist < enc.dicSize && RepeatsAt(enc.text, p, mainDist, mainLen)
    {
      hide RepeatsAt;
      mainLen, mainDist := mainLen0, 0;
      if mainLen >= 2 {
        var k := |matches|;
        mainDist := matches[k - 1].dist;
        while k > 1 && mainLen == matches[k - 2].len + 1
          invariant 1 <= k <= |matches| && mainDist == matches[k - 1].dist
          invariant 2 <= mainLen <= LEN_MAX && mainLen <= mainLen0 && RepeatsAt(enc.text, p, mainDist, mainLen)
          decreases k
        {
          if !ChangePair(matches[k - 2].dist, mainDist) {
            break;
          }
          k := k - 1;
          mainLen := matches[k - 1].len;
          mainDist := matches[k - 1].dist;
        }
        if mainLen == 2 && mainDist >= 0x80 {
          mainLen := 1;
        }
      }
    }

    lemma {:induction false} Prefix(p: nat, dist: nat, len: nat, n: nat)
      requires RepeatsAt(enc.text, p, dist, len) && n <= len
      ensures RepeatsAt(enc.text, p, dist, n)
    {
    }

    /** Fewer than two bytes are never a repeat. */
    static function AtLeastTwo(n: nat): nat {
      if n < 2 then 2 else n
    }

    /** Is it better to code a literal now because of what starts at the next byte? */
    method BetterNext(mainLen: nat, mainDist: nat) returns (better: bool)
      requires Linked() && finder.Valid() && 2 <= mainLen <= LEN_MAX && 2 <= finder.cur && RepsUsable(finder.cur - 2)
      requires finder.cur + 1 <= |enc.text| && finder.cur - 2 + mainLen <= |enc.text|
      requires Candidates(finder.cur - 1, longestMatchLength)
      ensures |enc.reps| == 4
      ensures better ==> longestMatchLength + 1 >= mainLen || SomeRep(finder.cur - 1, AtLeastTwo(mainLen - 1))
      ensures !better ==> longestMatchLength <= mainLen + 1 && !SomeRep(finder.cur - 1, AtLeastTwo(mainLen - 1))
    {
      hide Finder.Valid, RepeatsAt;
      if longestMatchLength >= 2 {
        var newDistance := matches[|matches| - 1].dist;
        if || (longestMatchLength >= mainLen && newDistance < mainDist)
           || (longestMatchLength == mainLen + 1 && !ChangePair(mainDist, newDistance))
           || longestMatchLength > mainLen + 1
           || (longestMatchLength + 1 >= mainLen && mainLen >= 3 && ChangePair(newDistance, mainDist)) {
          return true;
        }
      }
      var i := 0;
      while i < 4
        invariant 0 <= i <= 4
        invariant forall j :: 0 <= j < i ==> !RepeatsAt(enc.text, finder.cur - 1, enc.reps[j], AtLeastTwo(mainLen - 1))
      {
        var limit := mainLen - 1;
        var len := RepLength(enc.reps[i], limit);
        if len > 0 && len >= limit {
          Prefix(finder.cur - 1, enc.reps[i], len, AtLeastTwo(limit));
          return true;
        }
        TooShort(finder.cur - 1, enc.reps[i], len, limit, AtLeastTwo(limit));
        i := i + 1;
      }
      better := false;
    }

    /** The first lines of GetOptimumFast: what the match finder says about the next byte. */
    method FirstLook() returns (mainLen: nat)
      requires Valid() && 1 <= enc.nowPos64 < |enc.text|
      modifies this`additionalOffset, this`longestMatchLength, this`matches, this`numAvail
      modifies finder, finder.hash, finder.son, finder.bufferBase
      ensures InStep() && additionalOffset == 1 && Candidates(enc.nowPos64, mainLen)
    {
      hide Finder.Valid, LzmaEnc.Valid, RepeatsAt, Candidates;
      if additionalOffset == 0 {
        mainLen := ReadMatchDistances();
      } else {
        mainLen := longestMatchLength;
      }
    }

    /** The last lines of GetOptimumFast: a match, unless the next byte is a better place for one. */
    method LookAhead(mainLen: nat, mainDist: nat) returns (len: nat, backRes: nat)
      requires InStep() && additionalOffset == 1 && 1 <= enc.nowPos64 && enc.nowPos64 + 3 <= |enc.text|
      requires 2 <= mainLen <= LEN_MAX && mainDist < enc.dicSize && RepeatsAt(enc.text, enc.nowPos64, mainDist, mainLen)
      modifies this`additionalOffset, this`longestMatchLength, this`matches, this`numAvail
      modifies finder, finder.hash, finder.son, finder.bufferBase
      ensures InStep() && enc.ValidChoice(len, backRes)
      ensures len <= additionalOffset <= len + 1
      ensures additionalOffset == len + 1 ==> Candidates(enc.nowPos64 + len, longestMatchLength)
      ensures if backRes == BACK_LITERAL then
                len == 1 && additionalOffset == 2
                && (longestMatchLength + 1 >= mainLen || SomeRep(enc.nowPos64 + 1, AtLeastTwo(mainLen - 1)))
              else
                len == mainLen && backRes == mainDist + NUM_REPS
                && longestMatchLength <= mainLen + 1 && !SomeRep(enc.nowPos64 + 1, AtLeastTwo(mainLen - 1))
    {
      hide Finder.Valid, LzmaEnc.Valid, RepeatsAt, Candidates, SomeRep;
      RepsNow();
      LongEnough(enc.nowPos64, mainDist, mainLen);
      longestMatchLength := ReadMatchDistances();
      var better := BetterNext(mainLen, mainDist);
      if better {
        return 1, BACK_LITERAL;
      }
      MovePos(mainLen - 2);
      return mainLen, mainDist + NUM_REPS;
    }

    /** GetOptimumFast: a truthful choice, together with a match finder that is exactly as far ahead
        as the choice is long, or one byte further with what it found there kept for the next
        call. A recent distance with numFastBytes bytes or more is always taken; a literal without
        looking ahead only where no recent distance has two bytes, and after looking ahead only where
        the next byte begins a repeat. */
    method GetOptimumFast() returns (len: nat, backRes: nat)
      requires Valid() && 1 <= enc.nowPos64 < |enc.text|
      modifies this`additionalOffset, this`longestMatchLength, this`matches, this`numAvail
      modifies finder, finder.hash, finder.son, finder.bufferBase
      ensures InStep() && enc.ValidChoice(len, backRes)
      ensures len <= additionalOffset <= len + 1
      ensures additionalOffset == len + 1 ==> Candidates(enc.nowPos64 + len, longestMatchLength)
      ensures SomeRep(enc.nowPos64, numFastBytes) ==> len >= numFastBytes && backRes < NUM_REPS
      ensures backRes == BACK_LITERAL && additionalOffset == 1 ==> !SomeRep(enc.nowPos64, 2)
      ensures backRes == BACK_LITERAL && additionalOffset == 2 ==> longestMatchLength >= 2 || SomeRep(enc.nowPos64 + 1, 2)
    {
      hide Finder.Valid, LzmaEnc.Valid, RepeatsAt, Linked, SomeRep, Candidates;
      RepsNow();
      var mainLen := FirstLook();
      LinkedNow();
      ghost var p := enc.nowPos64;
      LastCandidate(p, mainLen);
      var avail := numAvail;
      if avail < 2 {
        NoRoom(p, 2);
        NoRoom(p, numFastBytes);
        return 1, BACK_LITERAL;
      }
      if avail > LEN_MAX {
        avail := LEN_MAX;
      }
      if avail < numFastBytes {
        NoRoom(p, numFastBytes);
      }
      var fast, repIndex, repLen := BestRep(avail);
      if fast {
        MovePos(repLen - 1);
        return repLen, repIndex;
      }
      if mainLen >= numFastBytes {
        var dist := matches[|matches| - 1].dist;
        LongEnough(p, dist, mainLen);
        MovePos(mainLen - 1);
        return mainLen, dist + NUM_REPS;
      }
      len, backRes := Compare(mainLen, repIndex, repLen, avail);
    }

    /** The rest of GetOptimumFast: the longest repeat at a recent distance against the longest match. */
    method Compare(mainLen0: nat, repIndex: nat, repLen: nat, avail: nat) returns (len: nat, backRes: nat)
      requires InStep() && additionalOffset == 1 && 1 <= enc.nowPos64 < |enc.text| && Candidates(enc.nowPos64, mainLen0)
      requires 2 <= avail && avail == (if numAvail > LEN_MAX then LEN_MAX else numAvail)
      requires repIndex < 4 && (repLen > 0 ==> 2 <= repLen <= avail && RepeatsAt(enc.text, enc.nowPos64, enc.reps[repIndex], repLen))
      requires repLen == 0 ==> !SomeRep(enc.nowPos64, 2)
      modifies this`additionalOffset, this`longestMatchLength, this`matches, this`numAvail
      modifies finder, finder.hash, finder.son, finder.bufferBase
      ensures InStep() && enc.ValidChoice(len, backRes)
      ensures len <= additionalOffset <= len + 1
      ensures additionalOffset == len + 1 ==> Candidates(enc.nowPos64 + len, longestMatchLength)
      ensures backRes == BACK_LITERAL && additionalOffset == 1 ==> !SomeRep(enc.nowPos64, 2)
      ensures backRes == BACK_LITERAL && additionalOffset == 2 ==> longestMatchLength >= 2 || SomeRep(enc.nowPos64 + 1, 2)
    {
      hide Finder.Valid, LzmaEnc.Valid, RepeatsAt, Linked, SomeRep, Candidates;
      RepsNow();
      LinkedNow();
      ghost var p := enc.nowPos64;
      LastCandidate(p, mainLen0);
      var mainLen, mainDist;
      mainLen, mainDist := BestMain(p, mainLen0);
      if repLen >= 2
         && (|| repLen + 1 >= mainLen
             || (repLen + 2 >= mainLen && mainDist >= 0x200)
             || (repLen + 3 >= mainLen && mainDist >= 0x8000)) {
        LongEnough(p, enc.reps[repIndex], repLen);
        MovePos(repLen - 1);
        return repLen, repIndex;
      }
      if mainLen < 2 || avail <= 2 {
        return 1, BACK_LITERAL;
      }
      len, backRes := LookAhead(mainLen, mainDist);
      Shorter(p + 1, AtLeastTwo(mainLen - 1), 2);
      if backRes == BACK_LITERAL {
        LastCandidate(p + 1, longestMatchLength);
      }
    }

    lemma {:induction false} Shorter(p: nat, n: nat, m: nat)
      requires |enc.reps| == 4 && m <= n
      ensures SomeRep(p, n) ==> SomeRep(p, m)
    {
      hide RepeatsAt;
      forall i | 0 <= i < 4 && RepeatsAt(enc.text, p, enc.reps[i], n)
        ensures RepeatsAt(enc.text, p, enc.reps[i], m)
      {
        Prefix(p, enc.reps[i], n, m);
      }
    }

    lemma {:induction false} LastCandidate(p: nat, mainLen: nat)
      requires Candidates(p, mainLen)
      ensures 1 <= numAvail && p + numAvail <= |enc.text| && (p + numAvail == |enc.text| || numAvail > LEN_MAX)
      ensures mainLen <= LEN_MAX && mainLen != 1 && p + mainLen <= |enc.text|
      ensures mainLen >= 2 ==> matches != [] && RepeatsAt(enc.text, p, matches[|matches| - 1].dist, mainLen)
                               && matches[|matches| - 1].dist < enc.dicSize
    {
    }

    lemma {:induction false} NoRoom(p: nat, n: nat)
      requires |enc.reps| == 4 && p + n > |enc.text|
      ensures !SomeRep(p, n)
    {
    }

    lemma {:induction false} LinkedNow()
      requires Linked()
      ensures finder.input == enc.text && enc.fastPos as object != finder.bufferBase && 5 <= numFastBytes <= LEN_MAX
    {
    }

    lemma {:induction false} LongEnough(p: nat, dist: nat, len: nat)
      requires RepeatsAt(enc.text, p, dist, len)
      ensures p + len <= |enc.text|
    {
    }

    lemma {:induction false} RepsNow()
      requires InStep() && 1 <= enc.nowPos64
      ensures RepsUsable(enc.nowPos64) && ValidProps(enc.pr)
      ensures enc.nowPos64 <= |enc.text| && enc.dicSize <= 0x4000_0000
    {
      hide Finder.Valid, RepeatsAt, RunCtx, AllAdmissible, PacketsOps;
    }

    // ----- the coding loop -----

    /** Codes a choice; the match finder is then less far ahead. */
    method Code(len: nat, back: nat)
      requires InStep() && enc.ValidChoice(len, back) && len <= additionalOffset
      modifies this`additionalOffset, enc, enc.rc
      ensures InStep() && enc.nowPos64 == old(enc.nowPos64) + len && additionalOffset == old(additionalOffset) - len
      ensures len >= 1
    {
      hide Finder.Valid, LzmaEnc.Valid, RepeatsAt, NextReps;
      ChoiceShape(len, back);
      SmallReps(enc.reps, enc.dicSize, enc.PacketOf(len, back));
      enc.CodePacket(len, back);
      additionalOffset := additionalOffset - len;
    }

    lemma {:induction false} ChoiceShape(len: nat, back: nat)
      requires InStep() && enc.ValidChoice(len, back)
      ensures len >= 1 && enc.nowPos64 < |enc.text|
      ensures var pk := enc.PacketOf(len, back); WellFormed(pk) && (pk.Match? ==> pk.dist < enc.dicSize)
    {
      hide Finder.Valid, PacketsOps, AllAdmissible, NextState, NextReps, Expand, RepeatsAt;
      enc.ChoiceAdmissible(len, back);
    }

    lemma {:induction false} NotAtEnd()
      requires Linked() && finder.Valid()
      ensures finder.cur <= |enc.text| && (finder.Available() > 0 <==> finder.cur < |enc.text|)
    {
      hide Finder.Valid;
      finder.Ahead();
      if finder.cur < |enc.text| {
        finder.MoreToCome();
      }
    }

    /** LzmaEnc_CodeOneBlock without limits: at least one packet and at most 2^15 bytes or a little
        more; at the end of the text the stream is finished. */
    method CodeOneBlock()
      requires Valid() && !finished && additionalOffset == 0 && (enc.nowPos64 > 0 ==> enc.nowPos64 < |enc.text|)
      modifies this, enc, enc.rc, finder, finder.hash, finder.son, finder.bufferBase
      ensures finished ==> Reproduces(enc.pr, enc.dicSize, enc.rc.out, |enc.pks|, writeEndMark, enc.text)
      ensures !finished ==> Valid() && additionalOffset == 0 && old(enc.nowPos64) < enc.nowPos64 < |enc.text|
    {
      hide Finder.Valid, LzmaEnc.Valid, RepeatsAt, Candidates, Reproduces;
      var startPos := enc.nowPos64;
      LinkedNow();
      NotAtEnd();
      if enc.nowPos64 == 0 {
        if finder.Available() == 0 {
          Finish();
          return;
        }
        var mainLen := ReadMatchDistances();
        Code(1, BACK_LITERAL);
      }
      NotAtEnd();
      if finder.Available() != 0 {
        var more := true;
        while more
          invariant Valid() && !finished && startPos <= enc.nowPos64 && 1 <= enc.nowPos64
          invariant more ==> enc.nowPos64 < |enc.text|
          invariant !more ==> enc.nowPos64 == |enc.text|
          decreases |enc.text| - enc.nowPos64, more
        {
          var len, back := GetOptimumFast();
          Code(len, back);
          NotAtEnd();
          if additionalOffset == 0 {
            if finder.Available() == 0 {
              more := false;
            } else {
              var processed := enc.nowPos64 - startPos;
              if processed >= 0x8000 {
                return;
              }
            }
          } else {
            StillInside();
          }
        }
      }
      Finish();
    }

    lemma {:induction false} StillInside()
      requires Candidates(enc.nowPos64, longestMatchLength)
      ensures enc.nowPos64 < |enc.text|
    {
    }

    /** Flush, once everything is coded. */
    method Finish()
      requires InStep() && enc.nowPos64 == |enc.text|
      modifies this`finished, enc, enc.rc
      ensures finished && Reproduces(enc.pr, enc.dicSize, enc.rc.out, |enc.pks|, writeEndMark, enc.text)
    {
      hide Finder.Valid, LzmaEnc.Valid, Reproduces;
      finished := true;
      enc.Flush(writeEndMark);
      assert enc.text[..|enc.text|] == enc.text;
    }
  }

  lemma {:induction false} SmallReps(reps: seq<nat>, dicSize: nat, pk: Packet)
    requires |reps| == 4 && forall i :: 0 <= i < 4 ==> reps[i] < dicSize
    requires WellFormed(pk) && (pk.Match? ==> pk.dist < dicSize)
    ensures |NextReps(reps, pk)| == 4 && forall i :: 0 <= i < 4 ==> NextReps(reps, pk)[i] < dicSize
  {
  }

  lemma {:induction false} FoundRepeats(t: seq<byte>, c: nat, n: nat, size: nat, found: seq<Pair>)
    requires AllFound(t, c, n, size, found) && Rising(found, 1)
    ensures forall k :: 0 <= k < |found| ==>
                          2 <= found[k].len <= n && found[k].dist + 1 < size && RepeatsAt(t, c, found[k].dist, found[k].len)
  {
    forall k | 0 <= k < |found|
      ensures RepeatsAt(t, c, found[k].dist, found[k].len)
    {
      var p := found[k];
      assert Real(t, c, n, p);
      forall i | c <= i < c + p.len ensures t[i] == t[i - p.dist - 1] {
        assert Suffixes.At(t, c, i - c) == Suffixes.At(t, c - 1 - p.dist, i - c);
      }
    }
  }

  /** LzmaEnc_Encode in fast mode: every text is coded to a stream that decodes to it. */
  method Encode(pr: Props, dicSize: nat, text: seq<byte>, g: Hashing, numFastBytes: nat, cutValue: nat, writeEndMark: bool)
    returns (out: seq<byte>, ghost n: nat)
    requires ValidProps(pr) && 1 <= dicSize <= 0x4000_0000 && HashingOk(g) && 5 <= numFastBytes <= LEN_MAX
    ensures Reproduces(pr, dicSize, out, n, writeEndMark, text)
  {
    hide Reproduces;
    var c := new Coder(pr, dicSize, text, g, numFastBytes, cutValue, writeEndMark);
    while !c.finished
      invariant fresh(c) && fresh(c.Repr()) && c.enc.text == text && c.enc.pr == pr && c.enc.dicSize == dicSize && c.writeEndMark == writeEndMark
      invariant !c.finished ==>
                  c.Valid() && c.additionalOffset == 0 && (c.enc.nowPos64 > 0 ==> c.enc.nowPos64 < |text|)
      invariant c.finished ==> Reproduces(pr, dicSize, c.enc.rc.out, |c.enc.pks|, writeEndMark, text)
      decreases !c.finished, |text| - c.enc.nowPos64
    {
      c.CodeOneBlock();
    }
    out, n := c.enc.rc.out, |c.enc.pks|;
  }
}
