/**
 * The part of the scanner that fills the queue of tokens (scanner.c): the object with its queue, its
 * stacks of simple keys and indents, and the dispatcher. Lexemes come in order, as they stand in the
 * text.
 */
module YamlFetcher {
  import opened YamlTokens
  import opened YamlQueue
  import opened YamlFetching
  import opened YamlNesting
  import opened YamlScanning

  class Fetcher {
    const input: seq<Lexeme>
    const last: Mark
    /** How many lexemes have been read, and whether the end of the text has. */
    var next: nat
    var ended: bool
    var mark: Mark
    var tokens: seq<Marked>
    var tokensParsed: nat
    var simpleKeys: seq<SimpleKey>
    var simpleKeyAllowed: bool
    var indents: seq<int>
    var indent: int
    var flowLevel: nat
    var streamStartProduced: bool
    var streamEndProduced: bool
    /** The tokens handed to the parser. */
    ghost var handed: seq<Marked>

    constructor (input: seq<Lexeme>, last: Mark)
      requires GoodInput(input, last)
      ensures Valid() && !streamEndProduced && handed == [] && this.input == input && this.last == last
    {
      this.input, this.last := input, last;
      next, ended, mark, tokens, tokensParsed, simpleKeys, simpleKeyAllowed := 0, false, Origin, [], 0, [], false;
      indents, indent, flowLevel, streamStartProduced, streamEndProduced, handed := [], 0, 0, false, false, [];
    }

    ghost function Now(): View
      reads this`handed, this`tokens, this`simpleKeys, this`indents, this`indent, this`flowLevel, this`simpleKeyAllowed, this`mark
    {
      View(handed + tokens, simpleKeys, indents, indent, flowLevel, simpleKeyAllowed, mark)
    }

    /** A key that is still possible is in the queue, not with the parser. */
    ghost predicate HeadSafe()
      reads this`handed, this`tokensParsed, this`simpleKeys
    {
      |handed| == tokensParsed && NumbersFrom(simpleKeys, tokensParsed)
    }

    /** What the specification says after the lexemes read. */
    ghost function Expected(): Fetched
      requires GoodInput(input, last) && next <= |input|
      reads this`next, this`ended
    {
      if ended then Tokens(input, last) else FetchAll(input, last, next)
    }

    ghost predicate Valid()
      reads this
    {
      && GoodInput(input, last) && next <= |input| && HeadSafe()
      && (ended ==> next == |input| && streamStartProduced)
      && streamEndProduced == (handed != [] && Last(handed).token.StreamEndToken?)
      && if streamStartProduced then Expected() == Fine(Now()) else next == 0 && tokens == [] && handed == []
    }

    /** The outcome that the specification asks for: its problem, or its state. */
    ghost predicate Agrees(p: Option<Problem>, f: Fetched)
      reads this
    {
      match f
      case Wrong(q) => p == Some(q)
      case Fine(v) => p == None && Now() == v
    }

    // ----- the queue -----

    method Enqueue(t: Marked)
      modifies this`tokens
      ensures tokens == old(tokens) + [t] && Now() == old(Now()).(all := old(Now()).all + [t])
    {
      assert handed + (tokens + [t]) == handed + tokens + [t];
      tokens := tokens + [t];
    }

    method QueueInsert(index: nat, t: Marked)
      requires index <= |tokens|
      modifies this`tokens
      ensures Now() == old(Now()).(all := Insert(old(Now()).all, |handed| + index, t)) && |tokens| == |old(tokens)| + 1
    {
      var a := handed + tokens;
      assert a[..|handed| + index] == handed + tokens[..index] && a[|handed| + index..] == tokens[index..];
      tokens := tokens[..index] + [t] + tokens[index..];
      assert handed + tokens == Insert(a, |handed| + index, t);
    }

    // ----- simple keys -----

    method StaleSimpleKeys() returns (p: Option<Problem>)
      modifies this`simpleKeys
      ensures Agrees(p, Stale(old(Now())))
    {
      var keys := simpleKeys;
      var i := 0;
      while i < |simpleKeys|
        invariant 0 <= i <= |keys| == |simpleKeys|
        invariant forall j :: 0 <= j < i ==>
                    simpleKeys[j] == (if Old(keys[j], mark) then Gone(keys[j]) else keys[j])
                    && !(Old(keys[j], mark) && keys[j].required)
        invariant forall j :: i <= j < |keys| ==> simpleKeys[j] == keys[j]
      {
        var k := simpleKeys[i];
        if k.possible && (k.mark.line < mark.line || k.mark.index + 1024 < mark.index) {
          if k.required {
            return Some(KeyWithoutValue);
          }
          simpleKeys := simpleKeys[i := k.(possible := false)];
        }
        i := i + 1;
      }
      p := None;
      assert Stale(old(Now())).Fine? && Stale(old(Now())).v.keys == simpleKeys;
    }

    method RemoveSimpleKey() returns (p: Option<Problem>)
      requires simpleKeys != []
      modifies this`simpleKeys
      ensures Agrees(p, Drop(old(Now()))) && |simpleKeys| == |old(simpleKeys)|
    {
      var n := |simpleKeys| - 1;
      if simpleKeys[n].possible && simpleKeys[n].required {
        return Some(KeyWithoutValue);
      }
      simpleKeys := simpleKeys[n := simpleKeys[n].(possible := false)];
      p := None;
    }

    method SaveSimpleKey() returns (p: Option<Problem>)
      requires simpleKeys != [] && |handed| == tokensParsed
      modifies this`simpleKeys
      ensures Agrees(p, Save(old(Now()))) && |simpleKeys| == |old(simpleKeys)|
    {
      var required := flowLevel == 0 && indent == mark.column;
      if required && !simpleKeyAllowed {
        return Some(AssertionFailed);
      }
      p := None;
      if simpleKeyAllowed {
        var k := SimpleKey(true, required, tokensParsed + |tokens|, mark);
        p := RemoveSimpleKey();
        if p == None {
          simpleKeys := simpleKeys[|simpleKeys| - 1 := k];
        }
      }
    }

    // ----- indentation -----

    /** Begins a block collection: at the end of the queue, or before a token in it. */
    method RollIndent(column: nat, number: Option<nat>, t: Token, m: Mark)
      requires |handed| == tokensParsed && (number.Some? ==> tokensParsed <= number.value <= tokensParsed + |tokens|)
      modifies this`tokens, this`indents, this`indent
      ensures var v := old(Now());
              Now() == if v.flow > 0 || v.indent >= column then v
                        else v.(indents := v.indents + [v.indent], indent := column,
                                all := if number.None? then v.all + [Marked(t, m, m)] else Insert(v.all, number.value, Marked(t, m, m)))
    {
      if flowLevel > 0 || indent >= column {
        return;
      }
      indents, indent := indents + [indent], column;
      if number.None? {
        Enqueue(Marked(t, m, m));
      } else {
        QueueInsert(number.value - tokensParsed, Marked(t, m, m));
      }
    }

    method UnrollIndent(column: int)
      requires flowLevel == 0 ==> Increasing(indents + [indent]) && column >= -1
      modifies this`tokens, this`indents, this`indent
      ensures Now() == Close(old(Now()), column)
    {
      hide Close, Increasing;
      if flowLevel > 0 {
        CloseDone(Now(), column);
        return;
      }
      while indent > column
        invariant Increasing(indents + [indent]) && Close(Now(), column) == Close(old(Now()), column)
        decreases |indents|
      {
        CloseOnce(Now(), column);
        Enqueue(Marked(BlockEndToken, mark, mark));
        var n := |indents| - 1;
        indent, indents := indents[n], indents[..n];
      }
      CloseDone(Now(), column);
    }

    // ----- fetching a token -----

    /** Puts the lexeme at the end of the queue and comes on behind it. */
    method Take(x: Lexeme, allowed: bool)
      modifies this`tokens, this`mark, this`simpleKeyAllowed
      ensures Now() == Put(old(Now()), x, allowed)
    {
      Enqueue(Marked(x.token, x.start, x.end));
      mark, simpleKeyAllowed := x.end, allowed;
    }

    method FetchStreamStart()
      requires !streamStartProduced && handed == [] && tokens == []
      modifies this`tokens, this`indents, this`indent, this`simpleKeys, this`flowLevel, this`mark, this`simpleKeyAllowed,
               this`streamStartProduced
      ensures Now() == Start && streamStartProduced
    {
      indent, simpleKeys, indents, flowLevel := -1, [NoKey], [], 0;
      simpleKeyAllowed, streamStartProduced, mark := true, true, Origin;
      tokens := [Marked(StreamStartToken, Origin, Origin)];
    }

    /** A directive, a document indicator or the end of the stream. */
    method FetchReset(x: Lexeme) returns (p: Option<Problem>)
      requires simpleKeys != [] && (flowLevel == 0 ==> Increasing(indents + [indent]))
      modifies this`tokens, this`indents, this`indent, this`simpleKeys, this`mark, this`simpleKeyAllowed
      ensures Agrees(p, YamlFetching.FetchReset(old(Now()), x))
    {
      hide Close;
      CloseKeeps(Now(), -1);
      UnrollIndent(-1);
      p := RemoveSimpleKey();
      if p == None {
        Take(x, false);
      }
    }

    method FetchFlowCollectionStart(x: Lexeme) returns (p: Option<Problem>)
      requires simpleKeys != [] && |handed| == tokensParsed
      modifies this`tokens, this`simpleKeys, this`flowLevel, this`mark, this`simpleKeyAllowed
      ensures Agrees(p, FetchFlowStart(old(Now()), x))
    {
      p := SaveSimpleKey();
      if p == None {
        simpleKeys := simpleKeys + [NoKey];
        flowLevel := flowLevel + 1;
        Take(x, true);
      }
    }

    method FetchFlowCollectionEnd(x: Lexeme) returns (p: Option<Problem>)
      requires simpleKeys != []
      modifies this`tokens, this`simpleKeys, this`flowLevel, this`mark, this`simpleKeyAllowed
      ensures Agrees(p, FetchFlowEnd(old(Now()), x))
    {
      p := RemoveSimpleKey();
      if p == None {
        if flowLevel > 0 {
          flowLevel := flowLevel - 1;
          simpleKeys := simpleKeys[..|simpleKeys| - 1];
        }
        Take(x, false);
      }
    }

    method FetchFlowEntry(x: Lexeme) returns (p: Option<Problem>)
      requires simpleKeys != []
      modifies this`tokens, this`simpleKeys, this`mark, this`simpleKeyAllowed
      ensures Agrees(p, YamlFetching.FetchFlowEntry(old(Now()), x))
    {
      p := RemoveSimpleKey();
      if p == None {
        Take(x, true);
      }
    }

    method FetchBlockEntry(x: Lexeme) returns (p: Option<Problem>)
      requires simpleKeys != [] && |handed| == tokensParsed
      modifies this`tokens, this`indents, this`indent, this`simpleKeys, this`mark, this`simpleKeyAllowed
      ensures Agrees(p, YamlFetching.FetchBlockEntry(old(Now()), x))
    {
      if flowLevel == 0 {
        if !simpleKeyAllowed {
          return Some(EntryNotAllowed);
        }
        RollIndent(mark.column, None, BlockSequenceStartToken, mark);
      }
      p := RemoveSimpleKey();
      if p == None {
        Take(x, true);
      }
    }

    method FetchKey(x: Lexeme) returns (p: Option<Problem>)
      requires simpleKeys != [] && |handed| == tokensParsed
      modifies this`tokens, this`indents, this`indent, this`simpleKeys, this`mark, this`simpleKeyAllowed
      ensures Agrees(p, YamlFetching.FetchKey(old(Now()), x))
    {
      if flowLevel == 0 {
        if !simpleKeyAllowed {
          return Some(KeyNotAllowed);
        }
        RollIndent(mark.column, None, BlockMappingStartToken, mark);
      }
      p := RemoveSimpleKey();
      if p == None {
        Take(x, flowLevel == 0);
      }
    }

    method FetchValue(x: Lexeme) returns (p: Option<Problem>)
      requires simpleKeys != [] && HeadSafe() && Sound(Now())
      modifies this`tokens, this`indents, this`indent, this`simpleKeys, this`mark, this`simpleKeyAllowed
      ensures Agrees(p, YamlFetching.FetchValue(old(Now()), x))
    {
      hide Insert, SameBelow;
      var k := simpleKeys[|simpleKeys| - 1];
      if k.possible {
        QueueInsert(k.number - tokensParsed, Marked(KeyToken, k.mark, k.mark));
        RollIndent(k.mark.column, Some(k.number), BlockMappingStartToken, k.mark);
        simpleKeys := simpleKeys[|simpleKeys| - 1 := k.(possible := false)];
        assert Now() == MakeKey(old(Now()), k);
        Take(x, false);
      } else {
        if flowLevel == 0 {
          if !simpleKeyAllowed {
            return Some(ValueNotAllowed);
          }
          RollIndent(mark.column, None, BlockMappingStartToken, mark);
        }
        Take(x, flowLevel == 0);
      }
      p := None;
    }

    /** Aliases, anchors, tags and scalars. */
    method FetchNode(x: Lexeme) returns (p: Option<Problem>)
      requires simpleKeys != [] && |handed| == tokensParsed
      modifies this`tokens, this`simpleKeys, this`mark, this`simpleKeyAllowed
      ensures Agrees(p, YamlFetching.FetchNode(old(Now()), x))
    {
      if x.form == BlockForm {
        p := RemoveSimpleKey();
      } else {
        p := SaveSimpleKey();
      }
      if p == None {
        Take(x, x.form != Ordinary);
      }
    }

    /** The dispatcher. */
    method FetchLexeme(x: Lexeme) returns (p: Option<Problem>)
      requires HeadSafe() && Inv(Now()) && Sound(Now())
      modifies this`tokens, this`indents, this`indent, this`simpleKeys, this`flowLevel, this`mark, this`simpleKeyAllowed
      ensures Agrees(p, Dispatch(old(Now()), x))
    {
      hide Inv, Increasing, YamlFetching.FetchReset, FetchFlowStart, FetchFlowEnd, YamlFetching.FetchFlowEntry,
        YamlFetching.FetchBlockEntry, YamlFetching.FetchKey, YamlFetching.FetchValue, YamlFetching.FetchNode;
      Grounded(Now());
      match x.token {
        case DocumentStartToken => p := FetchReset(x);
        case DocumentEndToken => p := FetchReset(x);
        case VersionDirectiveToken(_, _) => p := FetchReset(x);
        case TagDirectiveToken(_) => p := FetchReset(x);
        case FlowSequenceStartToken => p := FetchFlowCollectionStart(x);
        case FlowMappingStartToken => p := FetchFlowCollectionStart(x);
        case FlowSequenceEndToken => p := FetchFlowCollectionEnd(x);
        case FlowMappingEndToken => p := FetchFlowCollectionEnd(x);
        case FlowEntryToken => p := FetchFlowEntry(x);
        case BlockEntryToken => p := FetchBlockEntry(x);
        case KeyToken => p := FetchKey(x);
        case ValueToken => p := FetchValue(x);
        case _ => p := FetchNode(x);
      }
    }

    /** Comes on to m, over blanks, comments and line breaks. */
    method ScanToNextToken(m: Mark)
      modifies this`mark, this`simpleKeyAllowed
      ensures Now() == Come(old(Now()), m)
    {
      if mark.line < m.line && flowLevel == 0 {
        simpleKeyAllowed := true;
      }
      mark := m;
    }

    method ArriveAt(m: Mark) returns (p: Option<Problem>)
      requires Inv(Now()) && Before(mark, m)
      modifies this`tokens, this`indents, this`indent, this`simpleKeys, this`mark, this`simpleKeyAllowed
      ensures Agrees(p, Arrive(old(Now()), m))
    {
      hide Inv, Increasing, Close, Stale, Come;
      Comes(Now(), m);
      ComeKeeps(Now(), m, Come(Now(), m).allowed);
      StaleKeeps(Come(Now(), m));
      ScanToNextToken(m);
      p := StaleSimpleKeys();
      if p == None {
        Grounded(Now());
        UnrollIndent(mark.column);
      }
    }

    /** How many times something is still to be fetched. */
    ghost function Left(): nat
      requires next <= |input|
      reads this`next, this`ended, this`streamStartProduced
    {
      |input| - next + (if ended then 0 else 1) + (if streamStartProduced then 0 else 1)
    }

    /** What a fetch is to establish: the queue is not empty and the outcome that of the specification. */
    ghost predicate Fetched(p: Option<Problem>)
      requires GoodInput(input, last) && next <= |input|
      reads this
    {
      if p == None then HeadSafe() && tokens != [] && Stale(Now()) == Expected() else Expected() == Wrong(p.value)
    }

    /** Reads the next lexeme. */
    method FetchFromText() returns (p: Option<Problem>)
      requires Valid() && !ended && streamStartProduced && next < |input|
      modifies this`next, this`tokens, this`indents, this`indent, this`simpleKeys, this`flowLevel, this`mark, this`simpleKeyAllowed
      ensures next == old(next) + 1 && Fetched(p)
    {
      hide FetchAll, Tokens, Dispatch, Arrive, Fetch, Stale, Inv, Sound, Increasing, GoodLexeme, NumbersFrom, GoodInput;
      var x := input[next];
      ghost var v := Now();
      Unfold(input, last, next + 1);
      Halves(v, x, tokensParsed);
      next := next + 1;
      p := ArriveAt(x.start);
      if p == None {
        p := FetchLexeme(x);
      }
    }

    /** Comes to the end of the text. */
    method FetchTheEnd() returns (p: Option<Problem>)
      requires Valid() && !ended && streamStartProduced && next == |input|
      modifies this`ended, this`tokens, this`indents, this`indent, this`simpleKeys, this`mark, this`simpleKeyAllowed
      ensures ended && Fetched(p)
    {
      hide FetchAll, Tokens, Arrive, Stale, Inv, Sound, YamlFetching.FetchReset, Increasing, NumbersFrom;
      ghost var v := Now();
      UnfoldEnd(input, last);
      EndSafe(v, last, tokensParsed);
      ArriveKeeps(v, last);
      ended := true;
      p := ArriveAt(last);
      if p == None {
        p := FetchStreamEnd();
      }
    }

    method FetchNextToken() returns (p: Option<Problem>)
      requires Valid() && !ended
      modifies this`next, this`ended, this`tokens, this`indents, this`indent, this`simpleKeys, this`flowLevel, this`mark,
               this`simpleKeyAllowed, this`streamStartProduced
      ensures next <= |input| && (ended ==> next == |input|) && streamStartProduced && Left() < old(Left()) && Fetched(p)
    {
      hide FetchAll, Tokens, Inv, Sound;
      if !streamStartProduced {
        FetchNone(input, last);
        StartSettles();
        FetchStreamStart();
        p := None;
      } else if next < |input| {
        p := FetchFromText();
      } else {
        p := FetchTheEnd();
      }
    }

    method FetchStreamEnd() returns (p: Option<Problem>)
      requires Inv(Now())
      modifies this`tokens, this`indents, this`indent, this`simpleKeys, this`mark, this`simpleKeyAllowed
      ensures var m := NewLine(old(mark));
              Agrees(p, YamlFetching.FetchReset(old(Now()).(mark := m), Lexeme(StreamEndToken, Ordinary, m, m)))
    {
      hide KeyOk, Run, Sorted, UpTo, Placed, Rising, Increasing, YamlFetching.FetchReset;
      Grounded(Now());
      if mark.column != 0 {
        mark := Mark(mark.index, mark.line + 1, 0);
      }
      p := FetchReset(Lexeme(StreamEndToken, Ordinary, mark, mark));
    }

    /** A key that is still possible may have to be put in before the head of the queue. */
    method KeyAtHead() returns (r: bool)
      ensures r <==> exists i :: 0 <= i < |simpleKeys| && simpleKeys[i].possible && simpleKeys[i].number == tokensParsed
    {
      var i := 0;
      while i < |simpleKeys|
        invariant 0 <= i <= |simpleKeys|
        invariant forall j :: 0 <= j < i ==> !(simpleKeys[j].possible && simpleKeys[j].number == tokensParsed)
      {
        if simpleKeys[i].possible && simpleKeys[i].number == tokensParsed {
          return true;
        }
        i := i + 1;
      }
      r := false;
    }

    /** Between two fetches, before keys out of date have been given up. */
    ghost predicate Between()
      reads this
    {
      && GoodInput(input, last) && next <= |input| && HeadSafe() && (ended ==> next == |input| && streamStartProduced)
      && streamEndProduced == (handed != [] && Last(handed).token.StreamEndToken?)
      && if !streamStartProduced then next == 0 && tokens == [] && handed == []
         else Stale(Now()) == Expected() && (tokens == [] ==> Expected() == Fine(Now()))
    }

    lemma ValidIsBetween()
      requires Valid()
      ensures Between()
    {
      hide FetchAll, Tokens, Stale, Inv;
      if streamStartProduced && !ended {
        AllSettled(input, last, next);
      } else if ended {
        TokensSettled(input, last);
      }
    }

    /** Whether more tokens have to be fetched before the head of the queue may go. */
    method NeedMore() returns (p: Option<Problem>, needMore: bool)
      requires Between()
      modifies this`simpleKeys
      ensures p == None ==> Valid()
      ensures p == None && !needMore ==> tokens != []
      ensures p == None && !needMore ==> forall i :: 0 <= i < |simpleKeys| && simpleKeys[i].possible ==> simpleKeys[i].number > tokensParsed
      ensures p == None && needMore && ended ==> streamEndProduced
      ensures p.Some? ==> Tokens(input, last) == Wrong(p.value)
    {
      hide FetchAll, Tokens, Stale, Inv;
      p, needMore := None, tokens == [];
      if !needMore {
        ghost var before := Now();
        p := StaleSimpleKeys();
        if p != None {
          if !ended { Wrongs(input, last, next); }
          return;
        }
        SettledKeys(before, Now(), tokensParsed);
        needMore := KeyAtHead();
      }
      if ended {
        NothingAfter(input, last);
        assert tokens == [] ==> handed + tokens == handed;
      }
    }

    /** Fills the queue until its head is sure to stay there. */
    method FetchMoreTokens() returns (p: Option<Problem>)
      requires Valid() && !streamEndProduced
      modifies this`next, this`ended, this`tokens, this`indents, this`indent, this`simpleKeys, this`flowLevel, this`mark,
               this`simpleKeyAllowed, this`streamStartProduced
      ensures next <= |input|
      ensures p == None ==> Valid() && tokens != []
      ensures p == None ==> forall i :: 0 <= i < |simpleKeys| && simpleKeys[i].possible ==> simpleKeys[i].number > tokensParsed
      ensures p.Some? ==> Tokens(input, last) == Wrong(p.value)
      ensures Left() < old(Left()) || (Left() == old(Left()) && |tokens| == |old(tokens)|)
    {
      hide FetchAll, Tokens, Stale, Inv, Valid, HeadSafe;
      ValidIsBetween();
      while true
        invariant Between() && !streamEndProduced
        invariant Left() < old(Left()) || (Left() == old(Left()) && |tokens| == |old(tokens)|)
        decreases Left()
      {
        var needMore;
        p, needMore := NeedMore();
        if p != None || !needMore {
          return;
        }
        p := FetchNextToken();
        if p != None {
          if !ended { Wrongs(input, last, next); }
          return;
        }
      }
    }

    /** yaml_parser_scan: hands the next token to the parser. */
    method Scan() returns (t: Marked, p: Option<Problem>)
      requires Valid() && !streamEndProduced
      modifies this
      ensures next <= |input|
      ensures p == None ==> Valid() && handed == old(handed) + [t]
      ensures p.Some? ==> Tokens(input, last) == Wrong(p.value)
      ensures p == None ==> Left() < old(Left()) || (Left() == old(Left()) && |tokens| < |old(tokens)|)
    {
      hide Valid;
      t := Marked(StreamEndToken, Origin, Origin);
      p := FetchMoreTokens();
      if p == None {
        t := HandOut();
      }
    }

    method HandOut() returns (t: Marked)
      requires Valid() && !streamEndProduced && tokens != []
      requires forall i :: 0 <= i < |simpleKeys| && simpleKeys[i].possible ==> simpleKeys[i].number > tokensParsed
      modifies this`tokens, this`tokensParsed, this`streamEndProduced, this`handed
      ensures Valid() && handed == old(handed) + [t] && |tokens| < |old(tokens)|
    {
      hide FetchAll, Tokens, Stale, Inv, NumbersFrom, Last, GoodInput, Sound;
      t := tokens[0];
      Moved(handed, tokens);
      HigherNumbers(simpleKeys, tokensParsed);
      tokens, tokensParsed := tokens[1..], tokensParsed + 1;
      if t.token == StreamEndToken {
        streamEndProduced := true;
      }
      handed := handed + [t];
    }

    /** All tokens of the text: those of the specification, however they are taken from the queue. */
    method ScanAll() returns (r: seq<Marked>, p: Option<Problem>)
      requires Valid() && !streamEndProduced && handed == []
      modifies this
      ensures p == None ==> Tokens(input, last).Fine? && r == Tokens(input, last).v.all
      ensures p.Some? ==> Tokens(input, last) == Wrong(p.value)
    {
      hide FetchAll, Tokens, Stale, Inv;
      r, p := [], None;
      while !streamEndProduced
        invariant Valid() && r == handed && p == None
        decreases Left(), |tokens|
      {
        var t;
        t, p := Scan();
        if p != None {
          return;
        }
        r := r + [t];
      }
      EndIsLast();
    }

    /** Once the end of the stream has been handed out, everything has. */
    lemma EndIsLast()
      requires Valid() && streamEndProduced
      ensures Tokens(input, last) == Fine(Now()) && handed == Now().all
    {
      hide FetchAll, Tokens, Inv, Written;
      if ended {
        OnlyAtTheEnd(input, last, handed, tokens);
      } else {
        NoEndYet(input, last, next, handed, tokens);
      }
    }
  }

  lemma {:induction false} CloseDone(v: View, column: int)
    requires v.flow > 0 || v.indent <= column
    ensures Close(v, column) == v
  {
  }

  lemma {:induction false} CloseOnce(v: View, column: int)
    requires v.flow == 0 && v.indent > column >= -1 && Increasing(v.indents + [v.indent])
    ensures v.indents != []
    ensures var n := |v.indents| - 1;
            && Increasing(v.indents[..n] + [v.indents[n]])
            && Close(v.(all := v.all + [BlockEnd(v)], indent := v.indents[n], indents := v.indents[..n]), column)
               == Close(v, column)
  {
    var l, n := v.indents + [v.indent], |v.indents| - 1;
    assert v.indents != [];
    Front(l);
    assert l[..|l| - 1] == v.indents == v.indents[..n] + [v.indents[n]];
  }

  /** The two halves of reading a lexeme, from a state that satisfies the invariant. */
  lemma {:induction false} Halves(v: View, x: Lexeme, n: nat)
    requires Inv(v) && Sound(v) && GoodLexeme(x) && Before(v.mark, x.start) && NumbersFrom(v.keys, n) && n <= |v.all|
    ensures match Arrive(v, x.start)
            case Wrong(p) => Fetch(v, x) == Wrong(p)
            case Fine(w) =>
              && Inv(w) && Sound(w) && NumbersFrom(w.keys, n) && Fetch(v, x) == Dispatch(w, x)
              && (Fetch(v, x).Fine? ==> NumbersFrom(Fetch(v, x).v.keys, n) && n < |Fetch(v, x).v.all|)
  {
    hide Inv, Arrive, Dispatch, NumbersFrom, Sound, GoodLexeme;
    ArriveKeeps(v, x.start);
    if Arrive(v, x.start).Fine? {
      var w := Arrive(v, x.start).v;
      ArriveNumbers(v, x.start, n);
      LastNumber(w);
      DispatchSafe(w, x, n);
    }
  }

  lemma {:induction false} Moved(a: seq<Marked>, b: seq<Marked>)
    requires b != []
    ensures a + [b[0]] + b[1..] == a + b && Last(a + [b[0]]) == b[0]
  {
  }

  lemma {:induction false} HigherNumbers(keys: seq<SimpleKey>, n: nat)
    requires forall i :: 0 <= i < |keys| && keys[i].possible ==> keys[i].number > n
    ensures NumbersFrom(keys, n + 1)
  {
  }

  /** Lexemes are not the end of the stream. */
  lemma {:induction false} NoEnd(input: seq<Lexeme>, last: Mark, i: nat)
    requires GoodInput(input, last) && i <= |input|
    ensures StreamEndToken !in [StreamStartToken] + Lexed(input[..i])
  {
  }

  lemma {:induction false} EndWritten(a: seq<Marked>)
    requires a != [] && Last(a).token == StreamEndToken
    ensures Written(a) != [] && Last(Written(a)) == StreamEndToken
  {
  }

  lemma {:induction false} LastIn(x: seq<Token>, y: seq<Token>)
    requires x != []
    ensures Last(x) in x + y
  {
    assert (x + y)[|x| - 1] == Last(x);
  }

  lemma {:induction false} NoEndYet(input: seq<Lexeme>, last: Mark, i: nat, a: seq<Marked>, b: seq<Marked>)
    requires GoodInput(input, last) && i <= |input| && FetchAll(input, last, i).Fine? && FetchAll(input, last, i).v.all == a + b
    requires a != []
    ensures Last(a).token != StreamEndToken
  {
    hide FetchAll, Inv, Written;
    if Last(a).token == StreamEndToken {
      EndWritten(a);
      WrittenJoin(a, b);
      LastIn(Written(a), Written(b));
      AllWritten(input, last, i);
      NoEnd(input, last, i);
    }
  }

  lemma {:induction false} OnlyAtTheEnd(input: seq<Lexeme>, last: Mark, a: seq<Marked>, b: seq<Marked>)
    requires GoodInput(input, last) && Tokens(input, last).Fine? && Tokens(input, last).v.all == a + b
    requires a != [] && Last(a).token == StreamEndToken
    ensures b == []
  {
    hide FetchAll, Tokens, Inv, Written;
    if b != [] {
      TokensRight(input, last);
      NothingAfter(input, last);
      assert Last(a + b) == Last(b);
      WrittenJoin(a, b);
      EndWritten(a);
      EndWritten(b);
      assert input[..|input|] == input;
      NoEnd(input, last, |input|);
      TwoEnds([StreamStartToken] + Lexed(input), Written(a), Written(b));
    }
  }

  lemma {:induction false} TwoEnds(w: seq<Token>, x: seq<Token>, y: seq<Token>)
    requires w + [StreamEndToken] == x + y && x != [] && y != [] && Last(x) == StreamEndToken
    ensures StreamEndToken in w
  {
    var n := |x| - 1;
    assert (x + y)[n] == StreamEndToken && |x + y| == |w| + 1;
    assert w[n] == (w + [StreamEndToken])[n];
  }

  lemma {:induction false} DispatchSafe(v: View, x: Lexeme, n: nat)
    requires Sound(v) && GoodLexeme(x) && NumbersFrom(v.keys, n) && n <= |v.all|
    ensures Dispatch(v, x).Fine? ==> NumbersFrom(Dispatch(v, x).v.keys, n) && n < |Dispatch(v, x).v.all|
  {
    if Dispatch(v, x).Fine? {
      DispatchNumbers(v, x, n);
    }
  }

  lemma {:induction false} EndSafe(v: View, last: Mark, n: nat)
    requires Sound(v) && NumbersFrom(v.keys, n) && n <= |v.all|
    ensures FetchEnd(v, last).Fine? ==> NumbersFrom(FetchEnd(v, last).v.keys, n) && n < |FetchEnd(v, last).v.all|
  {
    if FetchEnd(v, last).Fine? {
      EndNumbers(v, last, n);
    }
  }
}
