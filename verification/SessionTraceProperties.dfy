/** What the trace renderer conserves: every piece of model text ends in exactly one
    block, blocks are maximal, and nothing but response lines overtakes buffered text. */
module SessionTraceProperties {
  import opened Seqs
  import opened SessionTrace

  /** The text of all model blocks, in print order. */
  function BlockText(lines: seq<Line>): string {
    if lines == [] then ""
    else BlockText(lines[..|lines| - 1]) + (if lines[|lines| - 1].ModelBlock? then lines[|lines| - 1].text else "")
  }

  /** The printed lines that are not model blocks. */
  function OtherLines(lines: seq<Line>): seq<Line> {
    if lines == [] then []
    else OtherLines(lines[..|lines| - 1]) + (if lines[|lines| - 1].ModelBlock? then [] else [lines[|lines| - 1]])
  }

  lemma LinesStep(before: seq<Line>, last: Line)
    ensures BlockText(before + [last]) == BlockText(before) + TextOfLine(last)
    ensures OtherLines(before + [last]) == OtherLines(before) + RestOfLine(last)
  {
    assert (before + [last])[..|before|] == before;
  }

  function TextOfLine(l: Line): string { if l.ModelBlock? then l.text else "" }

  function RestOfLine(l: Line): seq<Line> { if l.ModelBlock? then [] else [l] }

  lemma NoLines()
    ensures BlockText([]) == "" && OtherLines([]) == []
  {
  }

  lemma Nothing<T>(a: seq<T>)
    ensures a + [] == a
  {
  }

  lemma {:induction false} BlockTextConcat(a: seq<Line>, b: seq<Line>)
    ensures BlockText(a + b) == BlockText(a) + BlockText(b)
    ensures OtherLines(a + b) == OtherLines(a) + OtherLines(b)
  {
    hide BlockText, OtherLines, TextOfLine, RestOfLine;
    if b == [] {
      NoLines();
      Nothing(a);
      Nothing(BlockText(a));
      Nothing(OtherLines(a));
    } else {
      var init, last := b[..|b| - 1], b[|b| - 1];
      BlockTextConcat(a, init);
      LinesStep(a + init, last);
      LinesStep(init, last);
      assert b == init + [last];
      Associate(a, init, [last]);
      Associate(BlockText(a), BlockText(init), TextOfLine(last));
      Associate(OtherLines(a), OtherLines(init), RestOfLine(last));
    }
  }

  predicate IsBarrierLine(l: Line) {
    l.TurnLine? || l.UserBlock? || l.ThinkingBlock? || l.CallLine?
  }

  predicate IsResponseLine(l: Line) { l.ResultLine? || l.ErrorLine? }

  /** Items as the renderer builds them: response lines pass, barriers print their own kinds. */
  ghost predicate Proper(items: seq<Item>) {
    forall i :: 0 <= i < |items| ==> ProperItem(items[i])
  }

  predicate ProperItem(item: Item) {
    match item
    case Text(_) => true
    case Pass(l) => IsResponseLine(l)
    case Barrier(ls) => |ls| <= 1 && forall l :: l in ls ==> IsBarrierLine(l)
  }

  lemma {:induction false} ItemsAreProper(tokens: seq<Token>, toolsOnly: bool)
    ensures Proper(Items(tokens, toolsOnly))
    ensures |Items(tokens, toolsOnly)| == |tokens|
  {
    if tokens != [] {
      ItemsAreProper(tokens[..|tokens| - 1], toolsOnly);
    }
  }

  lemma OneLine(l: Line)
    requires !l.ModelBlock?
    ensures BlockText([l]) == "" && OtherLines([l]) == [l]
  {
    LinesStep([], l);
    assert [] + [l] == [l];
  }

  lemma BlockOf(text: string)
    ensures BlockText(Block(text)) == text && OtherLines(Block(text)) == []
  {
    if text != "" {
      assert Block(text)[..0] == [];
    }
  }

  lemma PrintedLines(item: Item)
    requires ProperItem(item)
    ensures item.Pass? ==> BlockText([item.line]) == "" && OtherLines([item.line]) == [item.line]
    ensures item.Barrier? ==> BlockText(item.lines) == "" && OtherLines(item.lines) == item.lines
  {
    match item
    case Text(_) =>
    case Pass(l) => OneLine(l);
    case Barrier(ls) =>
      if ls != [] {
        assert ls == [ls[0]] && ls[0] in ls;
        OneLine(ls[0]);
      }
  }

  lemma EmitText(before: seq<Item>, last: Item)
    requires ProperItem(last)
    ensures var items := before + [last];
      && AllText(items) == AllText(before) + (if last.Text? then last.text else "")
      && BlockText(Emitted(items)) + Open(items) ==
           BlockText(Emitted(before)) + Open(before) + (if last.Text? then last.text else "")
  {
    AllStep(before, last);
    EmittedStep(before, last);
    PrintedLines(last);
    BlockOf(Open(before));
    hide BlockText, OtherLines, Block, ProperItem, AllText, Emitted, Open;
    var done, open := Emitted(before), Open(before);
    Nothing(BlockText(done));
    Nothing(BlockText(done) + open);
    match last
    case Text(s) => Associate(BlockText(done), open, s);
    case Pass(l) => BlockTextConcat(done, [l]);
    case Barrier(ls) =>
      BlockTextConcat(done, Block(open));
      BlockTextConcat(done + Block(open), ls);
  }

  /** What an item itself prints besides model text. */
  function OwnLines(item: Item): seq<Line> {
    if item.Text? then [] else if item.Pass? then [item.line] else item.lines
  }

  lemma AllStep(before: seq<Item>, last: Item)
    ensures AllText(before + [last]) == AllText(before) + (if last.Text? then last.text else "")
    ensures AllLines(before + [last]) == AllLines(before) + OwnLines(last)
  {
    var items := before + [last];
    assert items[..|items| - 1] == before && items[|items| - 1] == last;
  }

  lemma EmitLines(before: seq<Item>, last: Item)
    requires ProperItem(last)
    ensures var items := before + [last];
      && AllLines(items) == AllLines(before) + OwnLines(last)
      && OtherLines(Emitted(items)) == OtherLines(Emitted(before)) + OwnLines(last)
  {
    AllStep(before, last);
    EmittedStep(before, last);
    PrintedLines(last);
    BlockOf(Open(before));
    hide BlockText, OtherLines, Block, ProperItem, AllLines, Emitted, Open;
    var done, open := Emitted(before), Open(before);
    Nothing(OtherLines(done));
    match last
    case Text(s) =>
    case Pass(l) => BlockTextConcat(done, [l]);
    case Barrier(ls) =>
      BlockTextConcat(done, Block(open));
      BlockTextConcat(done + Block(open), ls);
  }

  lemma {:induction false} MachineConserves(items: seq<Item>)
    requires Proper(items)
    ensures BlockText(Emitted(items)) + Open(items) == AllText(items)
    ensures OtherLines(Emitted(items)) == AllLines(items)
  {
    if items != [] {
      hide BlockText, OtherLines, Emitted, Open, AllText, AllLines;
      var before, last := items[..|items| - 1], items[|items| - 1];
      MachineConserves(before);
      EmitText(before, last);
      EmitLines(before, last);
      assert items == before + [last];
    }
  }

  /** Nothing lost, nothing duplicated, order kept: the blocks spell the model text and the
      other lines are the items' own lines. */
  lemma GroupingConserves(items: seq<Item>)
    requires Proper(items)
    ensures BlockText(Grouped(items)) == AllText(items)
    ensures OtherLines(Grouped(items)) == AllLines(items)
  {
    MachineConserves(items);
    GroupedIsEmittedThenFlushed(items);
    BlockOf(Open(items));
    BlockTextConcat(Emitted(items), Block(Open(items)));
  }

  // ---------------------------------------------------------------- against the event list

  /** The model text of an event list, read off the events directly. */
  function ModelTextOfParts(ev: Event, role: string, parts: seq<Option<Part>>): string {
    if parts == [] then ""
    else var p := parts[|parts| - 1];
         ModelTextOfParts(ev, role, parts[..|parts| - 1]) +
         (if p.Some? && !p.value.thought && ev.author != "user" && role != "user" then p.value.text else "")
  }

  function ModelTextOf(events: seq<Event>): string {
    if events == [] then ""
    else var ev := events[|events| - 1];
         ModelTextOf(events[..|events| - 1]) +
         (if ev.content.Some? then ModelTextOfParts(ev, ev.content.value.role, ev.content.value.parts) else "")
  }

  /** The model text of a token list. */
  function TokenText(tokens: seq<Token>): string {
    if tokens == [] then ""
    else TokenText(tokens[..|tokens| - 1]) + (if tokens[|tokens| - 1].ModelText? then tokens[|tokens| - 1].text else "")
  }

  lemma {:induction false} TokenTextConcat(a: seq<Token>, b: seq<Token>)
    ensures TokenText(a + b) == TokenText(a) + TokenText(b)
  {
    if b == [] {
      assert TokenText(b) == "";
      hide TokenText;
      Nothing(a);
      Nothing(TokenText(a));
    } else {
      var init, last := b[..|b| - 1], b[|b| - 1];
      hide TokenText;
      TokenTextConcat(a, init);
      TokenStep(a + init, last);
      TokenStep(init, last);
      assert b == init + [last];
      Associate(a, init, [last]);
      Associate(TokenText(a), TokenText(init), if last.ModelText? then last.text else "");
    }
  }

  lemma TokenStep(before: seq<Token>, last: Token)
    ensures TokenText(before + [last]) == TokenText(before) + (if last.ModelText? then last.text else "")
  {
    assert (before + [last])[..|before|] == before;
  }

  lemma {:induction false} ItemTextIsTokenText(tokens: seq<Token>, toolsOnly: bool)
    ensures AllText(Items(tokens, toolsOnly)) == TokenText(tokens)
  {
    if tokens != [] {
      var before := tokens[..|tokens| - 1];
      ItemTextIsTokenText(before, toolsOnly);
      var items := Items(tokens, toolsOnly);
      assert items[..|items| - 1] == Items(before, toolsOnly);
    }
  }

  lemma SingleToken(t: Token)
    ensures TokenText([t]) == if t.ModelText? then t.text else ""
  {
    assert [t][..0] == [];
  }

  lemma PartText(ev: Event, role: string, part: Option<Part>)
    ensures TokenText(PartTokens(ev, role, part, false)) ==
            if part.Some? && !part.value.thought && ev.author != "user" && role != "user" then part.value.text else ""
  {
    if part.Some? {
      var p := part.value;
      var a := if p.text != "" then [TextToken(ev, role, p)] else [];
      var b := if p.call.Some? then [CallToken(p.call.value, ev.at)] else [];
      var c := if p.response.Some? then [ResponseToken(p.response.value, ev.at)] else [];
      TokenTextConcat(a, b);
      TokenTextConcat(a + b, c);
      SingleToken(TextToken(ev, role, p));
      if p.call.Some? { SingleToken(CallToken(p.call.value, ev.at)); }
      if p.response.Some? { SingleToken(ResponseToken(p.response.value, ev.at)); }
    }
  }

  lemma {:induction false} PartsText(ev: Event, role: string, parts: seq<Option<Part>>)
    ensures TokenText(PartsTokens(ev, role, parts, false)) == ModelTextOfParts(ev, role, parts)
  {
    if parts != [] {
      var i := |parts| - 1;
      PartsText(ev, role, parts[..i]);
      PartText(ev, role, parts[i]);
      TokenTextConcat(PartsTokens(ev, role, parts[..i], false), PartTokens(ev, role, parts[i], false));
    }
  }

  lemma {:induction false} EventsText(events: seq<Event>)
    ensures TokenText(Tokens(events, false)) == ModelTextOf(events)
  {
    if events != [] {
      var before, ev := events[..|events| - 1], events[|events| - 1];
      EventsText(before);
      if ev.content.Some? {
        var turn := TurnTokens(before, ev);
        var parts := PartsTokens(ev, ev.content.value.role, ev.content.value.parts, false);
        PartsText(ev, ev.content.value.role, ev.content.value.parts);
        assert TokenText(turn) == "" by { if turn != [] { SingleToken(turn[0]); } }
        assert Tokens(events, false) == Tokens(before, false) + turn + parts;
        hide TurnTokens, PartsTokens, TokenText;
        TokenTextConcat(Tokens(before, false), turn);
        TokenTextConcat(Tokens(before, false) + turn, parts);
      }
    }
  }

  /** Conservation over the whole trace: with ToolsOnly off, the model blocks spell exactly
      the model text of the shown events. */
  lemma TraceConservesModelText(events: seq<Event>, lastN: int)
    ensures BlockText(Trace(events, false, lastN)) == ModelTextOf(Shown(events, lastN))
  {
    var shown := Shown(events, lastN);
    var tokens := Tokens(shown, false);
    var summary := Summary(|shown|, CountCalls(tokens), CountErrors(tokens));
    ItemsAreProper(tokens, false);
    GroupingConserves(Items(tokens, false));
    ItemTextIsTokenText(tokens, false);
    EventsText(shown);
    OneLine(summary);
    BlockTextConcat(Grouped(Items(tokens, false)), [summary]);
  }

  // ---------------------------------------------------------------- where blocks may stand

  /** Barriers cut the trace into independent pieces: text before a barrier is printed before
      it and text after it is printed after it. */
  lemma BarriersSplitTheTrace(a: seq<Item>, bar: Item, b: seq<Item>)
    requires bar.Barrier?
    ensures Grouped(a + [bar] + b) == Grouped(a) + bar.lines + Grouped(b)
  {
    hide Block, Emitted, Open, Grouped;
    GroupedIsEmittedThenFlushed(a);
    GroupedIsEmittedThenFlushed(b);
    GroupedIsEmittedThenFlushed(a + [bar] + b);
    MachineRestartsAtBarrier(a, bar, b);
  }

  /** Inside one piece only response lines overtake the text, which becomes a single block. */
  lemma OnlyResponsesOvertake(items: seq<Item>)
    requires NoBarrier(items) && Proper(items)
    ensures Grouped(items) == AllLines(items) + Block(AllText(items))
    ensures forall l :: l in AllLines(items) ==> IsResponseLine(l)
  {
    GroupedIsEmittedThenFlushed(items);
    RunWithoutBarrier(items);
    LinesOfRun(items);
  }

  lemma {:induction false} LinesOfRun(items: seq<Item>)
    requires NoBarrier(items) && Proper(items)
    ensures forall l :: l in AllLines(items) ==> IsResponseLine(l)
  {
    if items != [] {
      LinesOfRun(items[..|items| - 1]);
    }
  }

  /** Between two model blocks there is always a barrier line: blocks are maximal. */
  ghost predicate BlocksSeparated(lines: seq<Line>) {
    forall i, j :: 0 <= i < j < |lines| && lines[i].ModelBlock? && lines[j].ModelBlock? ==>
      exists k :: i < k < j && IsBarrierLine(lines[k])
  }

  /** Every barrier prints a line; so it is when ToolsOnly is off. */
  ghost predicate Speaking(items: seq<Item>) {
    forall i :: 0 <= i < |items| && items[i].Barrier? ==> items[i].lines != []
  }

  lemma {:induction false} ItemsSpeak(tokens: seq<Token>)
    ensures Speaking(Items(tokens, false))
  {
    if tokens != [] {
      ItemsSpeak(tokens[..|tokens| - 1]);
    }
  }

  lemma {:induction false} BlocksAreMaximal(items: seq<Item>)
    requires Proper(items) && Speaking(items)
    ensures BlocksSeparated(Grouped(items)) && NoEmptyBlock(Grouped(items))
    decreases |items|
  {
    var n := RunLength(items);
    var head, block := AllLines(items[..n]), Block(AllText(items[..n]));
    FirstRun(items);
    hide RunLength, AllLines, AllText, Block, Grouped, BlocksSeparated, NoEmptyBlock;
    if n < |items| {
      BarrierSpeaks(items, n);
      hide ProperItem;
      var rest := Grouped(items[n + 1..]);
      BlocksAreMaximal(items[n + 1..]);
      PrependRun(head, block, items[n].lines[0], rest);
    } else {
      FinalRun(head, block);
    }
  }

  ghost predicate NoEmptyBlock(lines: seq<Line>) {
    forall l :: l in lines && l.ModelBlock? ==> l.text != ""
  }

  /** The first run of a grouping: response lines, then at most one block, which is not empty. */
  lemma FirstRun(items: seq<Item>)
    requires Proper(items)
    ensures var n := RunLength(items); var head, block := AllLines(items[..n]), Block(AllText(items[..n]));
      && (forall l :: l in head ==> IsResponseLine(l)) && |block| <= 1 && NoEmptyBlock(block)
      && Grouped(items) == head + block + (if n < |items| then items[n].lines + Grouped(items[n + 1..]) else [])
  {
    LinesOfRun(items[..RunLength(items)]);
    hide AllLines, AllText;
  }

  lemma BarrierSpeaks(items: seq<Item>, n: nat)
    requires Proper(items) && Speaking(items) && n < |items| && items[n].Barrier?
    ensures var ls := items[n].lines; ls != [] && ls == [ls[0]] && IsBarrierLine(ls[0])
    ensures Proper(items[n + 1..]) && Speaking(items[n + 1..])
  {
    assert ProperItem(items[n]);
    var ls := items[n].lines;
    assert ls[0] in ls;
    hide ProperItem, IsBarrierLine;
  }

  lemma FinalRun(head: seq<Line>, block: seq<Line>)
    requires (forall l :: l in head ==> IsResponseLine(l)) && |block| <= 1 && NoEmptyBlock(block)
    ensures BlocksSeparated(head + block + []) && NoEmptyBlock(head + block + [])
  {
    var lines := head + block + [];
    forall k | 0 <= k < |head| ensures !lines[k].ModelBlock? {
      assert head[k] in head;
    }
  }

  lemma PrependRun(head: seq<Line>, block: seq<Line>, bar: Line, rest: seq<Line>)
    requires forall l :: l in head ==> IsResponseLine(l)
    requires |block| <= 1 && NoEmptyBlock(block) && IsBarrierLine(bar) && BlocksSeparated(rest) && NoEmptyBlock(rest)
    ensures BlocksSeparated(head + block + ([bar] + rest)) && NoEmptyBlock(head + block + ([bar] + rest))
  {
    var lines := head + block + ([bar] + rest);
    var at := |head| + |block|;
    assert lines[at] == bar;
    forall k | 0 <= k < |head| ensures !lines[k].ModelBlock? {
      assert head[k] in head;
    }
    forall i, j | 0 <= i < j < |lines| && lines[i].ModelBlock? && lines[j].ModelBlock?
      ensures exists k :: i < k < j && IsBarrierLine(lines[k])
    {
      if i > at {
        assert lines[i] == rest[i - at - 1] && lines[j] == rest[j - at - 1];
        var k :| i - at - 1 < k < j - at - 1 && IsBarrierLine(rest[k]);
        assert lines[k + at + 1] == rest[k];
      }
    }
  }

  /** With ToolsOnly on there is no model text in the trace at all. */
  lemma {:induction false} ToolsOnlyHasNoText(events: seq<Event>)
    ensures forall t :: t in Tokens(events, true) ==> t.Turn? || t.CallToken? || t.ResponseToken?
  {
    if events != [] {
      var before, ev := events[..|events| - 1], events[|events| - 1];
      ToolsOnlyHasNoText(before);
      if ev.content.Some? {
        ToolsOnlyParts(ev, ev.content.value.role, ev.content.value.parts);
      }
    }
  }

  lemma {:induction false} ToolsOnlyParts(ev: Event, role: string, parts: seq<Option<Part>>)
    ensures forall t :: t in PartsTokens(ev, role, parts, true) ==> t.CallToken? || t.ResponseToken?
  {
    if parts != [] {
      ToolsOnlyParts(ev, role, parts[..|parts| - 1]);
    }
  }
}
