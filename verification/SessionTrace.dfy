/** The session trace renderer: one pass over the events with a model-text buffer,
    a turn tracker, call timestamps and counters. */
module SessionTrace {
  import opened Seqs

  /** Nanoseconds since some origin; None is the zero time. */
  type Time = Option<int>

  datatype Call = Call(id: string, name: string, args: string)
  datatype Response = Response(id: string, error: string, result: string)
  datatype Part = Part(text: string, thought: bool, call: Option<Call>, response: Option<Response>)
  datatype Content = Content(role: string, parts: seq<Option<Part>>)
  datatype Event = Event(invocation: string, author: string, at: Time, content: Option<Content>)

  datatype Line =
    | TurnLine(number: nat, at: Time)
    | ModelBlock(text: string)
    | ThinkingBlock(text: string)
    | UserBlock(text: string)
    | CallLine(call: Call, at: Time)
    | ResultLine(result: string, durationMs: int)
    | ErrorLine(error: string, durationMs: int)
    | Summary(events: nat, toolCalls: nat, toolErrors: nat)

  // ---------------------------------------------------------------- the event list as tokens

  datatype Token =
    | Turn(number: nat, at: Time)
    | ModelText(text: string)
    | UserText(text: string)
    | Thinking(text: string)
    | CallToken(call: Call, at: Time)
    | ResponseToken(response: Response, at: Time)

  /** The invocation of the last event with content that names one. */
  function LastTurn(events: seq<Event>): string {
    if events == [] then ""
    else var ev := events[|events| - 1];
         if ev.content.Some? && ev.invocation != "" then ev.invocation else LastTurn(events[..|events| - 1])
  }

  predicate OpensTurn(before: seq<Event>, ev: Event) {
    ev.content.Some? && ev.invocation != "" && ev.invocation != LastTurn(before)
  }

  function TurnCount(events: seq<Event>): nat {
    if events == [] then 0
    else TurnCount(events[..|events| - 1]) +
         (if OpensTurn(events[..|events| - 1], events[|events| - 1]) then 1 else 0)
  }

  function TextToken(ev: Event, role: string, part: Part): Token {
    if part.thought then Thinking(part.text)
    else if ev.author == "user" || role == "user" then UserText(part.text)
    else ModelText(part.text)
  }

  function PartTokens(ev: Event, role: string, part: Option<Part>, toolsOnly: bool): seq<Token> {
    if part.None? then [] else
      (if part.value.text != "" && !toolsOnly then [TextToken(ev, role, part.value)] else [])
      + (if part.value.call.Some? then [CallToken(part.value.call.value, ev.at)] else [])
      + (if part.value.response.Some? then [ResponseToken(part.value.response.value, ev.at)] else [])
  }

  function PartsTokens(ev: Event, role: string, parts: seq<Option<Part>>, toolsOnly: bool): seq<Token> {
    if parts == [] then []
    else PartsTokens(ev, role, parts[..|parts| - 1], toolsOnly) + PartTokens(ev, role, parts[|parts| - 1], toolsOnly)
  }

  function TurnTokens(before: seq<Event>, ev: Event): seq<Token> {
    if OpensTurn(before, ev) then [Turn(TurnCount(before) + 1, ev.at)] else []
  }

  function Tokens(events: seq<Event>, toolsOnly: bool): seq<Token> {
    if events == [] then [] else
      var before, ev := events[..|events| - 1], events[|events| - 1];
      if ev.content.None? then Tokens(before, toolsOnly)
      else Tokens(before, toolsOnly) + TurnTokens(before, ev)
           + PartsTokens(ev, ev.content.value.role, ev.content.value.parts, toolsOnly)
  }

  // ---------------------------------------------------------------- tokens as items

  /** What a token does to the output: add buffered text, print past the buffer, or
      flush the buffer and print. */
  datatype Item = Text(text: string) | Pass(line: Line) | Barrier(lines: seq<Line>)

  function CallTimes(tokens: seq<Token>): map<string, Time> {
    if tokens == [] then map[]
    else var t := tokens[|tokens| - 1];
         var m := CallTimes(tokens[..|tokens| - 1]);
         if t.CallToken? then m[t.call.id := t.at] else m
  }

  function TruncDiv(a: int, b: int): int
    requires b > 0
  {
    if a >= 0 then a / b else -((-a) / b)
  }

  /** Whole milliseconds since the matching call; zero when either time is missing. */
  function DurationMs(calls: map<string, Time>, id: string, at: Time): int {
    if id in calls && at.Some? && calls[id].Some? then TruncDiv(at.value - calls[id].value, 1_000_000) else 0
  }

  /** A response prints its error if it has one, and otherwise its result. */
  function AnswerLine(r: Response, durationMs: int): Line {
    if r.error != "" then ErrorLine(r.error, durationMs) else ResultLine(r.result, durationMs)
  }

  function ItemOf(before: seq<Token>, t: Token, toolsOnly: bool): Item {
    match t
    case ModelText(s) => Text(s)
    case ResponseToken(r, at) => Pass(AnswerLine(r, DurationMs(CallTimes(before), r.id, at)))
    case Turn(n, at) => Barrier(if toolsOnly then [] else [TurnLine(n, at)])
    case UserText(s) => Barrier([UserBlock(s)])
    case Thinking(s) => Barrier([ThinkingBlock(s)])
    case CallToken(c, at) => Barrier([CallLine(c, at)])
  }

  function Items(tokens: seq<Token>, toolsOnly: bool): seq<Item> {
    if tokens == [] then []
    else Items(tokens[..|tokens| - 1], toolsOnly) + [ItemOf(tokens[..|tokens| - 1], tokens[|tokens| - 1], toolsOnly)]
  }

  // ---------------------------------------------------------------- the buffer machine

  /** The text still buffered after the items. */
  function Open(items: seq<Item>): string {
    if items == [] then ""
    else match items[|items| - 1]
         case Text(s) => Open(items[..|items| - 1]) + s
         case Pass(_) => Open(items[..|items| - 1])
         case Barrier(_) => ""
  }

  function Block(text: string): seq<Line> {
    if text == "" then [] else [ModelBlock(text)]
  }

  /** The lines printed after the items. */
  function Emitted(items: seq<Item>): seq<Line> {
    if items == [] then []
    else var before := items[..|items| - 1];
         match items[|items| - 1]
         case Text(_) => Emitted(before)
         case Pass(l) => Emitted(before) + [l]
         case Barrier(ls) => Emitted(before) + Block(Open(before)) + ls
  }

  function CountCalls(tokens: seq<Token>): nat {
    if tokens == [] then 0
    else CountCalls(tokens[..|tokens| - 1]) + (if tokens[|tokens| - 1].CallToken? then 1 else 0)
  }

  function CountErrors(tokens: seq<Token>): nat {
    if tokens == [] then 0
    else var t := tokens[|tokens| - 1];
         CountErrors(tokens[..|tokens| - 1]) + (if t.ResponseToken? && t.response.error != "" then 1 else 0)
  }

  /** The renderer's variables after a token list. */
  datatype Vars = Vars(out: seq<Line>, buf: string, calls: map<string, Time>, toolCalls: nat, toolErrors: nat)

  function VarsAfter(tokens: seq<Token>, toolsOnly: bool): Vars {
    var items := Items(tokens, toolsOnly);
    Vars(Emitted(items), Open(items), CallTimes(tokens), CountCalls(tokens), CountErrors(tokens))
  }

  lemma StepVars(tokens: seq<Token>, t: Token, toolsOnly: bool)
    ensures var v, w := VarsAfter(tokens, toolsOnly), VarsAfter(tokens + [t], toolsOnly);
            var item := ItemOf(tokens, t, toolsOnly);
      && v.calls == CallTimes(tokens)
      && w.calls == (if t.CallToken? then v.calls[t.call.id := t.at] else v.calls)
      && w.toolCalls == v.toolCalls + (if t.CallToken? then 1 else 0)
      && w.toolErrors == v.toolErrors + (if t.ResponseToken? && t.response.error != "" then 1 else 0)
      && (item.Text? ==> w.out == v.out && w.buf == v.buf + item.text)
      && (item.Pass? ==> w.out == v.out + [item.line] && w.buf == v.buf)
      && (item.Barrier? ==> w.out == v.out + Block(v.buf) + item.lines && w.buf == "")
  {
    var more := tokens + [t];
    assert more[..|more| - 1] == tokens;
    var items := Items(tokens, toolsOnly);
    var moreItems := Items(more, toolsOnly);
    assert moreItems == items + [ItemOf(tokens, t, toolsOnly)];
    assert moreItems[..|moreItems| - 1] == items;
  }

  // ---------------------------------------------------------------- the renderer

  /** Flushing: the block for the buffered text, if there is any. */
  method Flush(out: seq<Line>, buf: string) returns (flushed: seq<Line>)
    ensures flushed == out + Block(buf)
  {
    flushed := out;
    if |buf| > 0 {
      flushed := flushed + [ModelBlock(buf)];
    }
  }

  method RenderText(ev: Event, role: string, part: Part, v: Vars, ghost tokens: seq<Token>, ghost toolsOnly: bool)
    returns (w: Vars)
    requires v == VarsAfter(tokens, toolsOnly)
    ensures w == VarsAfter(tokens + [TextToken(ev, role, part)], toolsOnly)
  {
    StepVars(tokens, TextToken(ev, role, part), toolsOnly);
    hide VarsAfter;
    if part.thought {
      var out := Flush(v.out, v.buf);
      w := v.(out := out + [ThinkingBlock(part.text)], buf := "");
    } else if ev.author == "user" || role == "user" {
      var out := Flush(v.out, v.buf);
      w := v.(out := out + [UserBlock(part.text)], buf := "");
    } else {
      w := v.(buf := v.buf + part.text);
    }
  }

  method RenderCall(ev: Event, fc: Call, v: Vars, ghost tokens: seq<Token>, ghost toolsOnly: bool) returns (w: Vars)
    requires v == VarsAfter(tokens, toolsOnly)
    ensures w == VarsAfter(tokens + [CallToken(fc, ev.at)], toolsOnly)
  {
    StepVars(tokens, CallToken(fc, ev.at), toolsOnly);
    hide VarsAfter;
    var out := Flush(v.out, v.buf);
    w := v.(buf := "", calls := v.calls[fc.id := ev.at], toolCalls := v.toolCalls + 1,
            out := out + [CallLine(fc, ev.at)]);
  }

  method RenderResponse(ev: Event, fr: Response, v: Vars, ghost tokens: seq<Token>, ghost toolsOnly: bool)
    returns (w: Vars)
    requires v == VarsAfter(tokens, toolsOnly)
    ensures w == VarsAfter(tokens + [ResponseToken(fr, ev.at)], toolsOnly)
  {
    StepVars(tokens, ResponseToken(fr, ev.at), toolsOnly);
    hide VarsAfter, CallTimes;
    var durationMs := 0;
    if fr.id in v.calls && ev.at.Some? && v.calls[fr.id].Some? {
      durationMs := TruncDiv(ev.at.value - v.calls[fr.id].value, 1_000_000);
    }
    if fr.error != "" {
      w := v.(out := v.out + [ErrorLine(fr.error, durationMs)], toolErrors := v.toolErrors + 1);
    } else {
      w := v.(out := v.out + [ResultLine(fr.result, durationMs)]);
    }
  }

  method RenderPart(ev: Event, role: string, part: Part, toolsOnly: bool, v: Vars, ghost tokens: seq<Token>)
    returns (w: Vars)
    requires v == VarsAfter(tokens, toolsOnly)
    ensures w == VarsAfter(tokens + PartTokens(ev, role, Some(part), toolsOnly), toolsOnly)
  {
    hide VarsAfter;
    w := v;
    ghost var done := tokens;
    if part.text != "" && !toolsOnly {
      w := RenderText(ev, role, part, w, done, toolsOnly);
      done := done + [TextToken(ev, role, part)];
    }
    if part.call.Some? {
      w := RenderCall(ev, part.call.value, w, done, toolsOnly);
      done := done + [CallToken(part.call.value, ev.at)];
    }
    if part.response.Some? {
      w := RenderResponse(ev, part.response.value, w, done, toolsOnly);
      done := done + [ResponseToken(part.response.value, ev.at)];
    }
    assert done == tokens + PartTokens(ev, role, Some(part), toolsOnly);
  }

  method RenderParts(ev: Event, content: Content, toolsOnly: bool, v: Vars, ghost tokens: seq<Token>)
    returns (w: Vars)
    requires v == VarsAfter(tokens, toolsOnly)
    ensures w == VarsAfter(tokens + PartsTokens(ev, content.role, content.parts, toolsOnly), toolsOnly)
  {
    hide VarsAfter, PartsTokens, PartTokens;
    NoParts(ev, content.role, tokens, toolsOnly);
    w := v;
    assert content.parts[..0] == [];
    for j := 0 to |content.parts|
      invariant w == VarsAfter(tokens + PartsTokens(ev, content.role, content.parts[..j], toolsOnly), toolsOnly)
    {
      ghost var sofar := tokens + PartsTokens(ev, content.role, content.parts[..j], toolsOnly);
      PartsStep(ev, content.role, content.parts, j, tokens, toolsOnly);
      if content.parts[j].None? {
        NoParts(ev, content.role, sofar, toolsOnly);
        continue;
      }
      w := RenderPart(ev, content.role, content.parts[j].value, toolsOnly, w, sofar);
    }
    assert content.parts[..|content.parts|] == content.parts;
  }

  lemma NoParts(ev: Event, role: string, tokens: seq<Token>, toolsOnly: bool)
    ensures tokens + PartsTokens(ev, role, [], toolsOnly) == tokens
    ensures tokens + PartTokens(ev, role, None, toolsOnly) == tokens
  {
  }

  lemma PartsStep(ev: Event, role: string, parts: seq<Option<Part>>, j: nat, tokens: seq<Token>, toolsOnly: bool)
    requires j < |parts|
    ensures tokens + PartsTokens(ev, role, parts[..j + 1], toolsOnly)
         == tokens + PartsTokens(ev, role, parts[..j], toolsOnly) + PartTokens(ev, role, parts[j], toolsOnly)
  {
    assert parts[..j + 1][..j] == parts[..j];
  }

  /** The events a LastN limit keeps. */
  function Shown(events: seq<Event>, lastN: int): (r: seq<Event>)
    ensures |r| == (if 1 <= lastN <= |events| then lastN else |events|)
    ensures r == events[|events| - |r|..]
  {
    if 0 < lastN < |events| then events[|events| - lastN..] else events
  }

  function Trace(events: seq<Event>, toolsOnly: bool, lastN: int): seq<Line> {
    var shown := Shown(events, lastN);
    var tokens := Tokens(shown, toolsOnly);
    Grouped(Items(tokens, toolsOnly)) + [Summary(|shown|, CountCalls(tokens), CountErrors(tokens))]
  }

  /** The turn separator before an event's parts. */
  method RenderTurn(ghost before: seq<Event>, ev: Event, toolsOnly: bool, lastTurn: string, turnCount: nat, v: Vars)
    returns (turn: string, count: nat, w: Vars)
    requires ev.content.Some? && lastTurn == LastTurn(before) && turnCount == TurnCount(before)
    requires v == VarsAfter(Tokens(before, toolsOnly), toolsOnly)
    ensures turn == LastTurn(before + [ev]) && count == TurnCount(before + [ev])
    ensures w == VarsAfter(Tokens(before, toolsOnly) + TurnTokens(before, ev), toolsOnly)
  {
    hide VarsAfter, Tokens;
    assert (before + [ev])[..|before|] == before;
    turn, count, w := lastTurn, turnCount, v;
    ghost var tokens := Tokens(before, toolsOnly);
    if ev.invocation != "" && ev.invocation != lastTurn {
      StepVars(tokens, Turn(turnCount + 1, ev.at), toolsOnly);
      var out := Flush(v.out, v.buf);
      turn, count := ev.invocation, turnCount + 1;
      if !toolsOnly {
        out := out + [TurnLine(count, ev.at)];
      }
      w := v.(out := out, buf := "");
    } else {
      assert tokens + TurnTokens(before, ev) == tokens;
    }
  }

  lemma TokensStep(events: seq<Event>, i: nat, toolsOnly: bool)
    requires i < |events|
    ensures var before, ev := events[..i], events[i];
      && events[..i + 1] == before + [ev]
      && (ev.content.None? ==>
            && Tokens(events[..i + 1], toolsOnly) == Tokens(before, toolsOnly)
            && LastTurn(events[..i + 1]) == LastTurn(before)
            && TurnCount(events[..i + 1]) == TurnCount(before))
      && (ev.content.Some? ==>
            Tokens(events[..i + 1], toolsOnly) == Tokens(before, toolsOnly) + TurnTokens(before, ev)
              + PartsTokens(ev, ev.content.value.role, ev.content.value.parts, toolsOnly))
  {
    assert events[..i + 1][..i] == events[..i];
  }

  lemma TraceFromVars(shown: seq<Event>, toolsOnly: bool)
    ensures LastTurn([]) == "" && TurnCount([]) == 0
    ensures VarsAfter(Tokens([], toolsOnly), toolsOnly) == Vars([], "", map[], 0, 0)
    ensures var tokens := Tokens(shown, toolsOnly);
            var v := VarsAfter(tokens, toolsOnly);
            Grouped(Items(tokens, toolsOnly)) + [Summary(|shown|, CountCalls(tokens), CountErrors(tokens))]
            == v.out + Block(v.buf) + [Summary(|shown|, v.toolCalls, v.toolErrors)]
  {
    GroupedIsEmittedThenFlushed(Items(Tokens(shown, toolsOnly), toolsOnly));
  }

  lemma TraceOfVars(events: seq<Event>, toolsOnly: bool, lastN: int)
    ensures var shown := Shown(events, lastN);
            var v := VarsAfter(Tokens(shown, toolsOnly), toolsOnly);
            Trace(events, toolsOnly, lastN) == v.out + Block(v.buf) + [Summary(|shown|, v.toolCalls, v.toolErrors)]
  {
    TraceFromVars(Shown(events, lastN), toolsOnly);
  }

  method RenderEvents(events: seq<Event>, toolsOnly: bool) returns (v: Vars)
    ensures v == VarsAfter(Tokens(events, toolsOnly), toolsOnly)
  {
    TraceFromVars(events, toolsOnly);
    hide VarsAfter, PartsTokens, Tokens, TurnTokens, LastTurn, TurnCount;
    var lastTurn, turnCount := "", 0;
    v := Vars([], "", map[], 0, 0);
    assert events[..0] == [];
    for i := 0 to |events|
      invariant lastTurn == LastTurn(events[..i]) && turnCount == TurnCount(events[..i])
      invariant v == VarsAfter(Tokens(events[..i], toolsOnly), toolsOnly)
    {
      TokensStep(events, i, toolsOnly);
      if events[i].content.None? {
        continue;
      }
      lastTurn, turnCount, v := RenderTurn(events[..i], events[i], toolsOnly, lastTurn, turnCount, v);
      v := RenderParts(events[i], events[i].content.value, toolsOnly, v,
                       Tokens(events[..i], toolsOnly) + TurnTokens(events[..i], events[i]));
    }
    assert events[..|events|] == events;
  }

  method RenderSessionTrace(allEvents: seq<Event>, toolsOnly: bool, lastN: int) returns (lines: seq<Line>)
    ensures lines == Trace(allEvents, toolsOnly, lastN)
  {
    var events := allEvents;
    if lastN > 0 && |events| > lastN {
      events := events[|events| - lastN..];
    }
    var v := RenderEvents(events, toolsOnly);
    TraceOfVars(allEvents, toolsOnly, lastN);
    hide VarsAfter, Tokens, Trace, Block;
    var out := Flush(v.out, v.buf);
    lines := out + [Summary(|events|, v.toolCalls, v.toolErrors)];
  }

  // ---------------------------------------------------------------- the declarative grouping

  /** The length of the leading run without a barrier. */
  function RunLength(items: seq<Item>): (n: nat)
    ensures n <= |items|
    ensures n < |items| ==> items[n].Barrier?
    ensures forall i :: 0 <= i < n ==> !items[i].Barrier?
  {
    if items == [] || items[0].Barrier? then 0 else 1 + RunLength(items[1..])
  }

  /** All text of the items, in order. */
  function AllText(items: seq<Item>): string {
    if items == [] then ""
    else AllText(items[..|items| - 1]) + (if items[|items| - 1].Text? then items[|items| - 1].text else "")
  }

  /** All lines that are not model text, in order. */
  function AllLines(items: seq<Item>): seq<Line> {
    if items == [] then []
    else AllLines(items[..|items| - 1]) +
         match items[|items| - 1]
         case Text(_) => []
         case Pass(l) => [l]
         case Barrier(ls) => ls
  }

  /** Split at the barriers; each run prints its response lines, then one block with all
      of its text, then the barrier's lines. */
  function Grouped(items: seq<Item>): seq<Line>
    decreases |items|
  {
    var n := RunLength(items);
    AllLines(items[..n]) + Block(AllText(items[..n])) +
    (if n < |items| then items[n].lines + Grouped(items[n + 1..]) else [])
  }

  ghost predicate NoBarrier(items: seq<Item>) {
    forall i :: 0 <= i < |items| ==> !items[i].Barrier?
  }

  lemma {:induction false} RunWithoutBarrier(items: seq<Item>)
    requires NoBarrier(items)
    ensures Emitted(items) == AllLines(items) && Open(items) == AllText(items)
  {
    if items != [] {
      RunWithoutBarrier(items[..|items| - 1]);
    }
  }

  lemma EmittedStep(before: seq<Item>, last: Item)
    ensures last.Text? ==> Emitted(before + [last]) == Emitted(before) && Open(before + [last]) == Open(before) + last.text
    ensures last.Pass? ==> Emitted(before + [last]) == Emitted(before) + [last.line] && Open(before + [last]) == Open(before)
    ensures last.Barrier? ==>
      Emitted(before + [last]) == Emitted(before) + Block(Open(before)) + last.lines && Open(before + [last]) == ""
  {
    var items := before + [last];
    assert items[..|items| - 1] == before && items[|items| - 1] == last;
    hide Block;
  }

  lemma NothingEmitted()
    ensures Emitted([]) == [] && Open([]) == ""
  {
  }

  lemma {:induction false} MachineRestartsAtBarrier(a: seq<Item>, bar: Item, b: seq<Item>)
    requires bar.Barrier?
    ensures Emitted(a + [bar] + b) == Emitted(a) + Block(Open(a)) + bar.lines + Emitted(b)
    ensures Open(a + [bar] + b) == Open(b)
  {
    hide Block, Emitted, Open;
    if b == [] {
      assert a + [bar] + b == a + [bar];
      EmittedStep(a, bar);
      NothingEmitted();
    } else {
      var c, last := b[..|b| - 1], b[|b| - 1];
      MachineRestartsAtBarrier(a, bar, c);
      assert a + [bar] + b == (a + [bar] + c) + [last] && b == c + [last];
      EmittedStep(a + [bar] + c, last);
      EmittedStep(c, last);
    }
  }

  lemma Associate<T>(a: seq<T>, b: seq<T>, c: seq<T>)
    ensures a + b + c == a + (b + c)
  {
  }

  lemma Regroup<T>(a: seq<T>, b: seq<T>, c: seq<T>, d: seq<T>, e: seq<T>)
    ensures a + b + (c + (d + e)) == a + b + c + d + e
  {
  }

  /** The one-pass machine, flushed at the end, prints exactly the declarative grouping. */
  lemma {:induction false} GroupedIsEmittedThenFlushed(items: seq<Item>)
    ensures Grouped(items) == Emitted(items) + Block(Open(items))
    decreases |items|
  {
    hide Emitted, Open, AllText, AllLines, Block, RunLength;
    var n := RunLength(items);
    var a := items[..n];
    assert Grouped(items) == AllLines(a) + Block(AllText(a)) +
      (if n < |items| then items[n].lines + Grouped(items[n + 1..]) else []);
    hide Grouped;
    RunWithoutBarrier(a);
    if n < |items| {
      var b := items[n + 1..];
      GroupedIsEmittedThenFlushed(b);
      assert items == a + [items[n]] + b;
      MachineRestartsAtBarrier(a, items[n], b);
      Regroup(Emitted(a), Block(Open(a)), items[n].lines, Emitted(b), Block(Open(b)));
    } else {
      assert a == items;
    }
  }
}
