/** LzmaDecode: a whole stream in one call, and why it undoes the encoder. */
module OneCall {
  import opened Bytes
  import opened Cells
  import opened RangeSpec
  import opened Packets
  import opened DecSpec
  import opened Stream
  import opened Locality
  import opened Slicing
  import opened Header
  import opened Decoder

  // ----- a larger dictionary does no harm -----

  lemma {:induction false} StepWider(inp: seq<byte>, pr: Props, small: nat, large: nat, d: Dec)
    requires ValidProps(pr) && ViewOk(d.view) && small <= large
    requires var o := Step(inp, pr, small, d); o.Next? || o.EndMark?
    ensures Step(inp, pr, large, d) == Step(inp, pr, small, d)
  {
    hide DecPacket, Norm, ViewOk, WellFormed, DecNextState, DecNextReps, NextHist;
  }

  lemma {:induction false} StepsWider(inp: seq<byte>, pr: Props, small: nat, large: nat, d: Dec, n: nat)
    requires ValidProps(pr) && ViewOk(d.view) && small <= large && Steps(inp, pr, small, d, n).Some?
    ensures Steps(inp, pr, large, d, n) == Steps(inp, pr, small, d, n)
    decreases n
  {
    hide Step, ViewOk;
    if n > 0 {
      StepWider(inp, pr, small, large, d);
      StepsWider(inp, pr, small, large, Step(inp, pr, small, d).d, n - 1);
    }
  }

  /** The header announces at least the encoder's dictionary size; that is as good. */
  lemma {:induction false} ReproducesWider(pr: Props, small: nat, large: nat, out: seq<byte>, n: nat, mark: bool, text: seq<byte>)
    requires ValidProps(pr) && small <= large && Reproduces(pr, small, out, n, mark, text)
    ensures Reproduces(pr, large, out, n, mark, text)
  {
    hide Step, Steps, InitCode, InitProbs;
    var d := DecStart(out, pr);
    StepsWider(out, pr, small, large, d, n);
    if mark {
      StepWider(out, pr, small, large, Steps(out, pr, small, d, n).value);
    }
  }

  /** What LzmaEncode writes, header and stream, is what LzmaDecode needs for its guarantee. */
  lemma {:induction false} HeaderSuffices(pr: Props, dictSize: nat, props: seq<byte>, out: seq<byte>, n: nat, mark: bool, text: seq<byte>)
    requires ValidProps(pr) && Reproduces(pr, dictSize, out, n, mark, text)
    requires var q := DecodeProps(props); q.Some? && q.value.0 == pr && dictSize <= q.value.1
    ensures var q := DecodeProps(props); Reproduces(q.value.0, q.value.1, out, n, mark, text)
  {
    hide Reproduces, DecodeProps;
    ReproducesWider(pr, dictSize, DecodeProps(props).value.1, out, n, mark, text);
  }

  // ----- an intact stream is decoded to its end -----

  /** How far a run over the beginning of an intact stream has come, compared with the n packets
      that make up its text. */
  lemma {:induction false} Place(pr: Props, dicSize: nat, out: seq<byte>, n: nat, mark: bool, text: seq<byte>,
                                 fed: seq<byte>, k: nat, d: Dec)
    requires ValidProps(pr) && Reproduces(pr, dicSize, out, n, mark, text)
    requires fed <= out && Runs(fed, pr, dicSize, k, d)
    ensures ViewOk(d.view) && Runs(out, pr, dicSize, k, d)
    ensures d.view.hist <= text || text <= d.view.hist
    ensures k < n ==> |d.view.hist| < |text| && Step(out, pr, dicSize, d).Next?
    ensures k == n ==> d.view.hist == text
    ensures k == n && !mark ==> d.src.code == 0 && d.src.pos == |out|
    ensures k == n && mark ==> var o := Step(out, pr, dicSize, d); o.EndMark? && o.d.src.code == 0 && o.d.src.pos == |out|
    ensures k > n ==> !mark && text <= d.view.hist
  {
    hide Step, Steps, ViewOk, DecStart;
    RunsOn(fed, out, pr, dicSize, k, d);
    StartFacts(out, pr);
    var r := Steps(out, pr, dicSize, DecStart(out, pr), n).value;
    if k < n {
      Ordered(out, pr, dicSize, k, d, n, r);
      FirstNext(out, pr, dicSize, d, n - k);
    } else {
      Ordered(out, pr, dicSize, n, r, k, d);
      if k > n {
        FirstNext(out, pr, dicSize, r, k - n);
      }
    }
  }

  lemma {:induction false} FirstNext(inp: seq<byte>, pr: Props, dicSize: nat, d: Dec, j: nat)
    requires ValidProps(pr) && ViewOk(d.view) && j > 0 && Steps(inp, pr, dicSize, d, j).Some?
    ensures Step(inp, pr, dicSize, d).Next?
  {
    hide Step;
  }

  /** No packet after the text has been asked for. */
  lemma {:induction false} NotBeyond(pr: Props, dicSize: nat, out: seq<byte>, n: nat, mark: bool, text: seq<byte>,
                                     fed: seq<byte>, k: nat, d: Dec, room: int)
    requires ValidProps(pr) && Reproduces(pr, dicSize, out, n, mark, text)
    requires fed <= out && Runs(fed, pr, dicSize, k, d) && room <= |text|
    requires Outgrown(fed, pr, dicSize, DecStart(fed, pr), k, room)
    ensures k <= n
  {
    hide Step, Steps, ViewOk, DecStart, Reproduces;
    if k > n {
      var p := Steps(fed, pr, dicSize, DecStart(fed, pr), k - 1).value;
      Place(pr, dicSize, out, n, mark, text, fed, k - 1, p);
    }
  }

  /** With exactly as much room as the text needs, no part of an intact stream is refused. */
  lemma {:induction false} NeverRefused(pr: Props, dicSize: nat, out: seq<byte>, n: nat, mark: bool, text: seq<byte>,
                                        fed: seq<byte>, finishEnd: bool, k: nat, d: Dec)
    requires ValidProps(pr) && Reproduces(pr, dicSize, out, n, mark, text) && fed <= out
    ensures !Refuses(fed, pr, dicSize, |text|, finishEnd, k, d)
  {
    hide Step, Steps, ViewOk, DecStart, Outgrown;
    if Refuses(fed, pr, dicSize, |text|, finishEnd, k, d) {
      StartFacts(fed, pr);
      assert fed[0] == out[0];
      Place(pr, dicSize, out, n, mark, text, fed, k, d);
      NotBeyond(pr, dicSize, out, n, mark, text, fed, k, d, |text|);
      RunsOn(fed, fed, pr, dicSize, k, d);
      StepExtends(fed, out, pr, dicSize, d);
      assert false;
    }
  }

  // ----- the call -----

  datatype SRes = SZ_OK | SZ_ERROR_DATA | SZ_ERROR_UNSUPPORTED | SZ_ERROR_INPUT_EOF

  /** What the decoder has put into its dictionary, never having gone back to the front. */
  lemma {:induction false} Flat(p: LzmaDec)
    requires p.Valid() && p.dicPos == |p.written|
    ensures p.dicPos <= p.dic.Length && p.dic[..p.dicPos] == p.written
  {
    hide LzmaDec.Valid;
    p.Written([], 0);
  }

  lemma {:induction false} Outcomes(p: LzmaDec)
    requires p.Valid() && !p.needFlush
    ensures ValidProps(p.pr) && Runs(p.fed, p.pr, p.dicSize, p.count, p.cur) && ViewOk(p.cur.view)
    ensures Outgrown(p.fed, p.pr, p.dicSize, DecStart(p.fed, p.pr), p.count, |p.written|)
    ensures p.written <= p.cur.view.hist && p.remainLen <= MATCH_SPEC_LEN_START
    ensures p.remainLen == 0 || p.remainLen == MATCH_SPEC_LEN_START ==> p.written == p.cur.view.hist
    ensures p.remainLen < MATCH_SPEC_LEN_START ==>
              |p.cur.view.hist| == |p.written| + p.remainLen && p.cur.src.code == p.code
              && p.cur.src.pos == |p.fed| - |p.tempBuf|
    ensures p.remainLen == MATCH_SPEC_LEN_START ==>
              && p.tempBuf == []
              && var o := Step(p.fed, p.pr, p.dicSize, p.cur); o.EndMark? && o.d.src.pos == |p.fed|
  {
    hide Ring, Step, Steps, NumProbs, ViewOk, InitCode, InitProbs, Expand, Outgrown, U32;
    ValidRuns(p);
    if p.needInitState {
      StepsNone(p.fed, p.pr, p.dicSize, DecStart(p.fed, p.pr));
    } else {
      p.AtRest();
    }
  }

  /** A call that succeeds on an intact stream, with exactly as much room as the text needs, has
      delivered the text. */
  lemma {:induction false} Delivered(p: LzmaDec, out: seq<byte>, n: nat, mark: bool, text: seq<byte>, finishEnd: bool, status: Status)
    requires p.Valid() && ValidProps(p.pr) && Reproduces(p.pr, p.dicSize, out, n, mark, text)
    requires p.fed <= out && |p.written| == p.dicPos <= |text|
    requires p.Explained(status, |text|, finishEnd, p.fed == out)
    ensures p.written == text
    ensures status.FinishedWithMark? || status.MaybeFinishedWithoutMark? || (status.NotFinished? && mark && !finishEnd)
    ensures !mark || status.FinishedWithMark? ==> p.fed == out
  {
    hide LzmaDec.Valid, Step, Steps, DecStart, Runs, ViewOk, Outgrown;
    if p.needFlush {
      Flushed(p);
    }
    Outcomes(p);
    NotBeyond(p.pr, p.dicSize, out, n, mark, text, p.fed, p.count, p.cur, |p.written|);
    Place(p.pr, p.dicSize, out, n, mark, text, p.fed, p.count, p.cur);
    RunsOn(p.fed, p.fed, p.pr, p.dicSize, p.count, p.cur);
    if !Step(p.fed, p.pr, p.dicSize, p.cur).NeedInput? {
      StepExtends(p.fed, out, p.pr, p.dicSize, p.cur);
    }
  }

  lemma {:induction false} Flushed(p: LzmaDec)
    requires p.Valid() && p.needFlush
    ensures |p.fed| < RC_INIT_SIZE && p.remainLen == 0
  {
    hide Ring, Step, Steps, NumProbs, ViewOk, InitCode, InitProbs, Expand, Outgrown, U32;
  }

  /**
   * LzmaDecode. On every stream that some run of the encoder could have written, and with as much
   * room as its text needs, the call delivers the text.
   * text, split into n packets with or without an end marker, is what the stream is said to hold;
   * seen, k and d tell how far decoding went.
   */
  method LzmaDecode(dest: array<byte>, src: seq<byte>, propData: seq<byte>, finishEnd: bool,
                    ghost n: nat, ghost mark: bool, ghost text: seq<byte>)
    returns (res: SRes, destLen: nat, srcLen: nat, status: Status, ghost seen: seq<byte>, ghost k: nat, ghost d: Dec)
    modifies dest
    ensures |src| < RC_INIT_SIZE ==> res == SZ_ERROR_INPUT_EOF
    ensures |src| >= RC_INIT_SIZE ==> (res == SZ_ERROR_UNSUPPORTED <==> DecodeProps(propData).None?)
    ensures seen <= src && destLen <= dest.Length && srcLen <= |src|
    ensures res == SZ_OK || res == SZ_ERROR_DATA ==>
              && var q := DecodeProps(propData);
                 && q.Some? && ValidProps(q.value.0)
                 && (res == SZ_OK ==>
                       && seen == src[..srcLen] && Runs(seen, q.value.0, q.value.1, k, d)
                       && dest[..destLen] <= d.view.hist
                       && (status.NotFinished? || status.MaybeFinishedWithoutMark? ==> destLen == dest.Length))
                 && (res == SZ_ERROR_DATA ==> Refuses(seen, q.value.0, q.value.1, dest.Length, finishEnd, k, d))
    ensures var q := DecodeProps(propData);
            |src| >= RC_INIT_SIZE && q.Some? && ValidProps(q.value.0)
            && Reproduces(q.value.0, q.value.1, src, n, mark, text) && dest.Length == |text| ==>
              && res == SZ_OK && destLen == |text| && dest[..] == text
              && (finishEnd || !mark ==> !status.NotFinished?)
              && (!mark || status.FinishedWithMark? ==> srcLen == |src|)
  {
    hide LzmaDec.Valid, Step, Steps, DecStart, ViewOk, Outgrown, Reproduces, Refuses, DecodeProps, Runs;
    res, destLen, srcLen, status, seen, k, d := SZ_ERROR_INPUT_EOF, 0, 0, NotSpecified, [], 0, Dec(Src(FULL_RANGE, 0, 0, [], true), VIEW_START);
    if |src| < RC_INIT_SIZE {
      return;
    }
    var q := DecodeProps(propData);
    if q.None? {
      res := SZ_ERROR_UNSUPPORTED;
      return;
    }
    DecodedPropsValid(propData);
    var p := new LzmaDec(q.value.0, q.value.1, dest);
    var ok;
    ok, status, srcLen := p.DecodeToDic(dest.Length, src, finishEnd);
    seen, k, d := p.fed, p.count, p.cur;
    if !ok {
      res := SZ_ERROR_DATA;
      if Reproduces(p.pr, p.dicSize, src, n, mark, text) && dest.Length == |text| {
        NeverRefused(p.pr, p.dicSize, src, n, mark, text, seen, finishEnd, k, d);
      }
      return;
    }
    res := if status.NeedsMoreInput? then SZ_ERROR_INPUT_EOF else SZ_OK;
    destLen := p.dicPos;
    Flat(p);
    Stopped(p, finishEnd, status, srcLen == |src|);
    if Reproduces(p.pr, p.dicSize, src, n, mark, text) && dest.Length == |text| {
      Delivered(p, src, n, mark, text, finishEnd, status);
      assert dest[..] == dest[..destLen];
    }
  }

  lemma {:induction false} Stopped(p: LzmaDec, finishEnd: bool, status: Status, drained: bool)
    requires p.Valid() && ValidProps(p.pr) && p.Explained(status, p.dic.Length, finishEnd, drained)
    ensures !status.NeedsMoreInput? ==>
              Runs(p.fed, p.pr, p.dicSize, p.count, p.cur) && p.written <= p.cur.view.hist
    ensures status.NotFinished? || status.MaybeFinishedWithoutMark? ==> p.dicPos == p.dic.Length
  {
    hide LzmaDec.Valid, Step, Steps, DecStart, Runs, ViewOk, Outgrown;
    if p.needFlush {
      Flushed(p);
    } else {
      Outcomes(p);
    }
  }
}
