/** Every line of the trace that is not model text, read off the events directly: who said
    what, which calls were made, how they were answered and how long that took. */
module SessionTraceLines {
  import opened Seqs
  import opened SessionTrace
  import opened SessionTraceProperties

  /** What the events hold for the trace: turns that begin, and what is said in them. */
  datatype Piece = NewTurn(at: Time) | Said(user: bool, at: Time, part: Part)

  predicate Names(ev: Event) { ev.content.Some? && ev.invocation != "" }

  /** Event j is the last before i that names an invocation. */
  ghost predicate NamesLast(events: seq<Event>, j: nat, i: nat)
    requires i <= |events|
  {
    j < i && Names(events[j]) && forall k :: j < k < i ==> !Names(events[k])
  }

  /** Event i names an invocation, and the last event before it that names one, if there is
      one, names another. */
  ghost predicate StartsTurn(events: seq<Event>, i: nat)
    requires i < |events|
  {
    && Names(events[i])
    && forall j: nat :: NamesLast(events, j, i) ==> events[j].invocation != events[i].invocation
  }

  function PiecesOfParts(user: bool, at: Time, parts: seq<Option<Part>>): seq<Piece> {
    if parts == [] then [] else
      var last := parts[|parts| - 1];
      PiecesOfParts(user, at, parts[..|parts| - 1]) + (if last.Some? then [Said(user, at, last.value)] else [])
  }

  ghost function Pieces(events: seq<Event>): seq<Piece> {
    if events == [] then [] else
      var i, ev := |events| - 1, events[|events| - 1];
      Pieces(events[..i]) +
      if ev.content.None? then [] else
        (if StartsTurn(events, i) then [NewTurn(ev.at)] else [])
        + PiecesOfParts(ev.author == "user" || ev.content.value.role == "user", ev.at, ev.content.value.parts)
  }

  predicate IsCall(piece: Piece, id: string) {
    piece.Said? && piece.part.call.Some? && piece.part.call.value.id == id
  }

  /** The last piece that calls under this identifier. */
  function LastCall(pieces: seq<Piece>, id: string): (r: Option<nat>)
    ensures r.Some? ==> r.value < |pieces| && IsCall(pieces[r.value], id)
    ensures forall k :: (if r.Some? then r.value + 1 else 0) <= k < |pieces| ==> !IsCall(pieces[k], id)
  {
    if pieces == [] then None
    else if IsCall(pieces[|pieces| - 1], id) then Some(|pieces| - 1)
    else LastCall(pieces[..|pieces| - 1], id)
  }

  /** Milliseconds from the last call under the identifier to the given time. */
  function TookMs(pieces: seq<Piece>, id: string, at: Time): int {
    var c := LastCall(pieces, id);
    if c.Some? && at.Some? && pieces[c.value].at.Some?
    then TruncDiv(at.value - pieces[c.value].at.value, 1_000_000)
    else 0
  }

  /** Durations are cut off towards zero. */
  lemma MillisecondsTowardsZero(ns: int)
    ensures var ms := TruncDiv(ns, 1_000_000);
      && (ns >= 0 ==> 0 <= ns - 1_000_000 * ms < 1_000_000)
      && (ns <= 0 ==> -1_000_000 < ns - 1_000_000 * ms <= 0)
  {
  }

  function TurnsIn(pieces: seq<Piece>): nat {
    if pieces == [] then 0
    else TurnsIn(pieces[..|pieces| - 1]) + (if pieces[|pieces| - 1].NewTurn? then 1 else 0)
  }

  function CallsIn(pieces: seq<Piece>): nat {
    if pieces == [] then 0
    else var p := pieces[|pieces| - 1];
         CallsIn(pieces[..|pieces| - 1]) + (if p.Said? && p.part.call.Some? then 1 else 0)
  }

  function ErrorsIn(pieces: seq<Piece>): nat {
    if pieces == [] then 0
    else var p := pieces[|pieces| - 1];
         ErrorsIn(pieces[..|pieces| - 1])
         + (if p.Said? && p.part.response.Some? && p.part.response.value.error != "" then 1 else 0)
  }

  function TextLine(user: bool, part: Part, toolsOnly: bool): seq<Line> {
    if toolsOnly || part.text == "" then []
    else if part.thought then [ThinkingBlock(part.text)]
    else if user then [UserBlock(part.text)]
    else []
  }

  function CallLines(at: Time, part: Part): seq<Line> {
    if part.call.Some? then [CallLine(part.call.value, at)] else []
  }

  function ResponseLine(pieces: seq<Piece>, r: Response, at: Time): Line {
    if r.error == "" then ResultLine(r.result, TookMs(pieces, r.id, at)) else ErrorLine(r.error, TookMs(pieces, r.id, at))
  }

  function Answers(pieces: seq<Piece>, at: Time, part: Part): seq<Line> {
    if part.response.Some? then [ResponseLine(pieces, part.response.value, at)] else []
  }

  /** The lines the last of the pieces adds. */
  function LastLines(pieces: seq<Piece>, toolsOnly: bool): seq<Line>
    requires pieces != []
  {
    match pieces[|pieces| - 1]
    case NewTurn(at) => if toolsOnly then [] else [TurnLine(TurnsIn(pieces), at)]
    case Said(user, at, part) =>
      TextLine(user, part, toolsOnly)
      + CallLines(at, part)
      + Answers(pieces, at, part)
  }

  function Lines(pieces: seq<Piece>, toolsOnly: bool): seq<Line> {
    if pieces == [] then [] else Lines(pieces[..|pieces| - 1], toolsOnly) + LastLines(pieces, toolsOnly)
  }

  // ---------------------------------------------------------------- the pieces as tokens

  function SayTokens(user: bool, part: Part, toolsOnly: bool): seq<Token> {
    if part.text == "" || toolsOnly then []
    else [if part.thought then Thinking(part.text) else if user then UserText(part.text) else ModelText(part.text)]
  }

  function CallTokens(at: Time, part: Part): seq<Token> {
    if part.call.Some? then [CallToken(part.call.value, at)] else []
  }

  function ResponseTokens(at: Time, part: Part): seq<Token> {
    if part.response.Some? then [ResponseToken(part.response.value, at)] else []
  }

  function SaidTokens(user: bool, at: Time, part: Part, toolsOnly: bool): seq<Token> {
    SayTokens(user, part, toolsOnly) + CallTokens(at, part) + ResponseTokens(at, part)
  }

  function TokensOf(pieces: seq<Piece>, toolsOnly: bool): seq<Token> {
    if pieces == [] then [] else
      TokensOf(pieces[..|pieces| - 1], toolsOnly) +
      match pieces[|pieces| - 1]
      case NewTurn(at) => [Turn(TurnsIn(pieces), at)]
      case Said(user, at, part) => SaidTokens(user, at, part, toolsOnly)
  }

  lemma OneMoreSaid(pieces: seq<Piece>, user: bool, at: Time, part: Part, toolsOnly: bool)
    ensures TokensOf(pieces + [Said(user, at, part)], toolsOnly)
         == TokensOf(pieces, toolsOnly) + SaidTokens(user, at, part, toolsOnly)
    ensures TurnsIn(pieces + [Said(user, at, part)]) == TurnsIn(pieces)
  {
    assert (pieces + [Said(user, at, part)])[..|pieces|] == pieces;
    hide SaidTokens;
  }

  lemma SamePartTokens(ev: Event, role: string, part: Part, toolsOnly: bool)
    ensures SaidTokens(ev.author == "user" || role == "user", ev.at, part, toolsOnly)
         == PartTokens(ev, role, Some(part), toolsOnly)
  {
  }

  lemma {:induction false} TokensOfParts(pieces: seq<Piece>, ev: Event, role: string, parts: seq<Option<Part>>, toolsOnly: bool)
    ensures var user := ev.author == "user" || role == "user";
      && TokensOf(pieces + PiecesOfParts(user, ev.at, parts), toolsOnly)
         == TokensOf(pieces, toolsOnly) + PartsTokens(ev, role, parts, toolsOnly)
      && TurnsIn(pieces + PiecesOfParts(user, ev.at, parts)) == TurnsIn(pieces)
  {
    hide TokensOf, TurnsIn, SaidTokens;
    var user := ev.author == "user" || role == "user";
    if parts == [] {
      Nothing(pieces);
      Nothing(TokensOf(pieces, toolsOnly));
    } else {
      var init, last := parts[..|parts| - 1], parts[|parts| - 1];
      TokensOfParts(pieces, ev, role, init, toolsOnly);
      var said := PiecesOfParts(user, ev.at, init);
      if last.Some? {
        OneMoreSaid(pieces + said, user, ev.at, last.value, toolsOnly);
        SamePartTokens(ev, role, last.value, toolsOnly);
        Associate(pieces, said, [Said(user, ev.at, last.value)]);
      } else {
        Nothing(said);
      }
      hide PartTokens;
      Associate(TokensOf(pieces, toolsOnly), PartsTokens(ev, role, init, toolsOnly), PartTokens(ev, role, last, toolsOnly));
    }
  }

  lemma NamesLastStep(events: seq<Event>, j: nat, i: nat)
    requires i < |events|
    ensures NamesLast(events, j, i + 1) <==> if Names(events[i]) then j == i else NamesLast(events, j, i)
    ensures NamesLast(events, j, i) ==> j < i
  {
    hide Names;
  }

  lemma {:induction false} LastTurnMeans(events: seq<Event>, i: nat)
    requires i <= |events|
    ensures LastTurn(events[..i]) == "" ==> forall k :: 0 <= k < i ==> !Names(events[k])
    ensures forall j: nat :: NamesLast(events, j, i) ==> events[j].invocation == LastTurn(events[..i])
    ensures LastTurn(events[..i]) != "" ==> exists j: nat :: NamesLast(events, j, i)
  {
    if i > 0 {
      hide LastTurn, Names, NamesLast;
      LastTurnMeans(events, i - 1);
      LastTurnStep(events, i - 1);
      forall j: nat
        ensures NamesLast(events, j, i) <==> if Names(events[i - 1]) then j == i - 1 else NamesLast(events, j, i - 1)
        ensures NamesLast(events, j, i) ==> j < i
      {
        NamesLastStep(events, j, i - 1);
      }
      if Names(events[i - 1]) {
        assert NamesLast(events, i - 1, i);
      } else if LastTurn(events[..i - 1]) != "" {
        var j: nat :| NamesLast(events, j, i - 1);
        assert NamesLast(events, j, i);
      }
    }
  }

  lemma LastTurnStep(events: seq<Event>, i: nat)
    requires i < |events|
    ensures LastTurn(events[..i + 1]) == if Names(events[i]) then events[i].invocation else LastTurn(events[..i])
    ensures Names(events[i]) ==> events[i].invocation != ""
  {
    assert events[..i + 1][..i] == events[..i];
  }

  lemma TurnsStart(events: seq<Event>, i: nat)
    requires i < |events|
    ensures StartsTurn(events, i) <==> OpensTurn(events[..i], events[i])
  {
    LastTurnMeans(events, i);
    hide LastTurn, NamesLast;
    if LastTurn(events[..i]) == "" {
      forall j: nat ensures !NamesLast(events, j, i) { NobodyNames(events, j, i); }
    }
  }

  lemma NobodyNames(events: seq<Event>, j: nat, i: nat)
    requires i <= |events| && forall k :: 0 <= k < i ==> !Names(events[k])
    ensures !NamesLast(events, j, i)
  {
  }

  /** A turn marker and its token. */
  lemma BeginTurn(pieces: seq<Piece>, begins: bool, at: Time, toolsOnly: bool)
    ensures var begun := pieces + (if begins then [NewTurn(at)] else []);
      && TurnsIn(begun) == TurnsIn(pieces) + (if begins then 1 else 0)
      && TokensOf(begun, toolsOnly) == TokensOf(pieces, toolsOnly) + (if begins then [Turn(TurnsIn(pieces) + 1, at)] else [])
  {
    if begins {
      assert (pieces + [NewTurn(at)])[..|pieces|] == pieces;
    } else {
      Nothing(pieces);
      Nothing(TokensOf(pieces, toolsOnly));
    }
  }

  /** What one more event with content adds. */
  lemma PiecesOfEvent(events: seq<Event>)
    requires events != [] && events[|events| - 1].content.Some?
    ensures var i, ev := |events| - 1, events[|events| - 1];
            Pieces(events) == Pieces(events[..i]) + (if StartsTurn(events, i) then [NewTurn(ev.at)] else [])
              + PiecesOfParts(ev.author == "user" || ev.content.value.role == "user", ev.at, ev.content.value.parts)
  {
    hide StartsTurn, PiecesOfParts;
    var i, ev := |events| - 1, events[|events| - 1];
    Associate(Pieces(events[..i]), if StartsTurn(events, i) then [NewTurn(ev.at)] else [],
              PiecesOfParts(ev.author == "user" || ev.content.value.role == "user", ev.at, ev.content.value.parts));
  }

  lemma OneMoreEvent(events: seq<Event>, toolsOnly: bool)
    requires events != [] && events[|events| - 1].content.Some?
    requires var before := events[..|events| - 1];
             Tokens(before, toolsOnly) == TokensOf(Pieces(before), toolsOnly) && TurnCount(before) == TurnsIn(Pieces(before))
    ensures Tokens(events, toolsOnly) == TokensOf(Pieces(events), toolsOnly) && TurnCount(events) == TurnsIn(Pieces(events))
  {
    hide Pieces, TokensOf, TurnsIn, StartsTurn, PiecesOfParts, PartsTokens, OpensTurn;
    var i := |events| - 1;
    var before, ev := events[..i], events[i];
    var pieces, begins := Pieces(before), StartsTurn(events, i);
    PiecesOfEvent(events);
    TurnsStart(events, i);
    BeginTurn(pieces, begins, ev.at, toolsOnly);
    TokensOfParts(pieces + (if begins then [NewTurn(ev.at)] else []), ev, ev.content.value.role, ev.content.value.parts,
                  toolsOnly);
  }

  lemma {:induction false} TokensAreThosePieces(events: seq<Event>, toolsOnly: bool)
    ensures Tokens(events, toolsOnly) == TokensOf(Pieces(events), toolsOnly)
    ensures TurnCount(events) == TurnsIn(Pieces(events))
  {
    if events != [] {
      var before, ev := events[..|events| - 1], events[|events| - 1];
      TokensAreThosePieces(before, toolsOnly);
      if ev.content.Some? {
        OneMoreEvent(events, toolsOnly);
      } else {
        Nothing(Pieces(before));
      }
      hide TokensOf, TurnsIn, PiecesOfParts, PartsTokens, StartsTurn, TurnTokens;
    }
  }

  // ---------------------------------------------------------------- the lines of the tokens

  /** The pieces and the tokens agree on lines, call times and counts. */
  ghost predicate Agree(pieces: seq<Piece>, tokens: seq<Token>, toolsOnly: bool) {
    && AllLines(Items(tokens, toolsOnly)) == Lines(pieces, toolsOnly)
    && TimesAgree(pieces, CallTimes(tokens))
    && CountCalls(tokens) == CallsIn(pieces) && CountErrors(tokens) == ErrorsIn(pieces)
  }

  ghost predicate TimesAgree(pieces: seq<Piece>, times: map<string, Time>) {
    forall id :: var c := LastCall(pieces, id);
      (id in times <==> c.Some?) && (c.Some? ==> times[id] == pieces[c.value].at)
  }

  lemma AddToken(tokens: seq<Token>, t: Token, toolsOnly: bool)
    ensures var more := tokens + [t];
      && AllLines(Items(more, toolsOnly)) == AllLines(Items(tokens, toolsOnly)) + OwnLines(ItemOf(tokens, t, toolsOnly))
      && CallTimes(more) == (if t.CallToken? then CallTimes(tokens)[t.call.id := t.at] else CallTimes(tokens))
      && CountCalls(more) == CountCalls(tokens) + (if t.CallToken? then 1 else 0)
      && CountErrors(more) == CountErrors(tokens) + (if t.ResponseToken? && t.response.error != "" then 1 else 0)
  {
    var more := tokens + [t];
    assert more[..|more| - 1] == tokens;
    AllStep(Items(tokens, toolsOnly), ItemOf(tokens, t, toolsOnly));
  }

  lemma TimesStep(init: seq<Piece>, last: Piece, times: map<string, Time>)
    requires TimesAgree(init, times)
    ensures TimesAgree(init + [last],
              if last.Said? && last.part.call.Some? then times[last.part.call.value.id := last.at] else times)
  {
    var pieces := init + [last];
    assert pieces[..|pieces| - 1] == init;
    forall id ensures LastCall(pieces, id) == if IsCall(last, id) then Some(|init|) else LastCall(init, id) {
    }
  }

  lemma SameDuration(pieces: seq<Piece>, times: map<string, Time>, id: string, at: Time)
    requires TimesAgree(pieces, times)
    ensures DurationMs(times, id, at) == TookMs(pieces, id, at)
  {
    hide TruncDiv;
  }

  lemma PiecesStep(init: seq<Piece>, last: Piece, toolsOnly: bool)
    ensures var pieces := init + [last];
      && Lines(pieces, toolsOnly) == Lines(init, toolsOnly) + LastLines(pieces, toolsOnly)
      && CallsIn(pieces) == CallsIn(init) + (if last.Said? && last.part.call.Some? then 1 else 0)
      && ErrorsIn(pieces) == ErrorsIn(init)
         + (if last.Said? && last.part.response.Some? && last.part.response.value.error != "" then 1 else 0)
  {
    assert (init + [last])[..|init|] == init;
    hide LastLines;
  }

  lemma TurnStep(init: seq<Piece>, at: Time, tokens: seq<Token>, toolsOnly: bool)
    requires Agree(init, tokens, toolsOnly)
    ensures var pieces := init + [NewTurn(at)]; Agree(pieces, tokens + [Turn(TurnsIn(pieces), at)], toolsOnly)
  {
    var last := NewTurn(at);
    TimesStep(init, last, CallTimes(tokens));
    PiecesStep(init, last, toolsOnly);
    AddToken(tokens, Turn(TurnsIn(init + [last]), at), toolsOnly);
    hide TimesAgree, CallTimes, CountCalls, CountErrors, AllLines, Items, Lines, CallsIn, ErrorsIn, TurnsIn;
  }

  lemma AddSay(user: bool, part: Part, tokens: seq<Token>, toolsOnly: bool)
    ensures var more := tokens + SayTokens(user, part, toolsOnly);
      && CallTimes(more) == CallTimes(tokens)
      && CountCalls(more) == CountCalls(tokens) && CountErrors(more) == CountErrors(tokens)
      && AllLines(Items(more, toolsOnly)) == AllLines(Items(tokens, toolsOnly)) + TextLine(user, part, toolsOnly)
  {
    hide CallTimes, CountCalls, CountErrors, AllLines, Items;
    Nothing(tokens);
    Nothing(AllLines(Items(tokens, toolsOnly)));
    if part.text != "" && !toolsOnly { AddToken(tokens, SayTokens(user, part, toolsOnly)[0], toolsOnly); }
  }

  lemma AddCall(at: Time, part: Part, tokens: seq<Token>, toolsOnly: bool)
    ensures var more := tokens + CallTokens(at, part);
      && CallTimes(more) == (if part.call.Some? then CallTimes(tokens)[part.call.value.id := at] else CallTimes(tokens))
      && CountCalls(more) == CountCalls(tokens) + (if part.call.Some? then 1 else 0) && CountErrors(more) == CountErrors(tokens)
      && AllLines(Items(more, toolsOnly)) == AllLines(Items(tokens, toolsOnly)) + CallLines(at, part)
  {
    hide CallTimes, CountCalls, CountErrors, AllLines, Items;
    Nothing(tokens);
    Nothing(AllLines(Items(tokens, toolsOnly)));
    if part.call.Some? { AddToken(tokens, CallToken(part.call.value, at), toolsOnly); }
  }

  lemma AddResponse(at: Time, part: Part, tokens: seq<Token>, toolsOnly: bool)
    ensures var more := tokens + ResponseTokens(at, part);
      && CallTimes(more) == CallTimes(tokens) && CountCalls(more) == CountCalls(tokens)
      && CountErrors(more) == CountErrors(tokens) + (if part.response.Some? && part.response.value.error != "" then 1 else 0)
      && AllLines(Items(more, toolsOnly)) == AllLines(Items(tokens, toolsOnly))
         + (if part.response.Some?
            then [AnswerLine(part.response.value, DurationMs(CallTimes(tokens), part.response.value.id, at))] else [])
  {
    hide CallTimes, CountCalls, CountErrors, AllLines, Items, DurationMs, AnswerLine;
    Nothing(tokens);
    Nothing(AllLines(Items(tokens, toolsOnly)));
    if part.response.Some? { AddToken(tokens, ResponseToken(part.response.value, at), toolsOnly); }
  }

  lemma SaidCounts(init: seq<Piece>, user: bool, at: Time, part: Part, tokens: seq<Token>, toolsOnly: bool)
    requires Agree(init, tokens, toolsOnly)
    ensures var more := tokens + SayTokens(user, part, toolsOnly) + CallTokens(at, part);
            var pieces := init + [Said(user, at, part)];
      && TimesAgree(pieces, CallTimes(more))
      && CountCalls(more) == CallsIn(pieces) && CountErrors(more) == ErrorsIn(init)
      && AllLines(Items(more, toolsOnly)) == Lines(init, toolsOnly) + TextLine(user, part, toolsOnly) + CallLines(at, part)
  {
    var t1 := tokens + SayTokens(user, part, toolsOnly);
    TimesStep(init, Said(user, at, part), CallTimes(tokens));
    PiecesStep(init, Said(user, at, part), toolsOnly);
    AddSay(user, part, tokens, toolsOnly);
    AddCall(at, part, t1, toolsOnly);
    hide TimesAgree, CallTimes, CountCalls, CountErrors, AllLines, Items, Lines, CallsIn, ErrorsIn, TextLine, CallLines;
    hide SayTokens, CallTokens, LastLines;
  }

  lemma SaidAnswer(pieces: seq<Piece>, at: Time, part: Part, tokens: seq<Token>, toolsOnly: bool)
    requires TimesAgree(pieces, CallTimes(tokens))
    ensures var more := tokens + ResponseTokens(at, part);
      && CallTimes(more) == CallTimes(tokens) && CountCalls(more) == CountCalls(tokens)
      && CountErrors(more) == CountErrors(tokens) + (if part.response.Some? && part.response.value.error != "" then 1 else 0)
      && AllLines(Items(more, toolsOnly)) == AllLines(Items(tokens, toolsOnly)) + Answers(pieces, at, part)
  {
    AddResponse(at, part, tokens, toolsOnly);
    if part.response.Some? { SameDuration(pieces, CallTimes(tokens), part.response.value.id, at); }
    hide TimesAgree, CallTimes, CountCalls, CountErrors, AllLines, Items, TookMs, DurationMs, LastCall;
  }

  lemma SaidStep(init: seq<Piece>, user: bool, at: Time, part: Part, tokens: seq<Token>, toolsOnly: bool)
    requires Agree(init, tokens, toolsOnly)
    ensures Agree(init + [Said(user, at, part)], tokens + SaidTokens(user, at, part, toolsOnly), toolsOnly)
  {
    hide TimesAgree, CallTimes, CountCalls, CountErrors, AllLines, Items, Lines, CallsIn, ErrorsIn, TextLine, CallLines;
    hide LastCall, SayTokens, CallTokens, ResponseTokens, ResponseLine, Answers;
    var last := Said(user, at, part);
    var pieces := init + [last];
    var t2 := tokens + SayTokens(user, part, toolsOnly) + CallTokens(at, part);
    SaidCounts(init, user, at, part, tokens, toolsOnly);
    SaidAnswer(pieces, at, part, t2, toolsOnly);
    PiecesStep(init, last, toolsOnly);
    FourInARow(Lines(init, toolsOnly), TextLine(user, part, toolsOnly), CallLines(at, part), Answers(pieces, at, part));
    FourInARow(tokens, SayTokens(user, part, toolsOnly), CallTokens(at, part), ResponseTokens(at, part));
  }

  lemma FourInARow<T>(a: seq<T>, b: seq<T>, c: seq<T>, d: seq<T>)
    ensures a + b + c + d == a + (b + c + d)
  {
  }

  lemma TokensStep(init: seq<Piece>, last: Piece, toolsOnly: bool)
    ensures last.NewTurn? ==>
      TokensOf(init + [last], toolsOnly) == TokensOf(init, toolsOnly) + [Turn(TurnsIn(init + [last]), last.at)]
    ensures last.Said? ==>
      TokensOf(init + [last], toolsOnly) == TokensOf(init, toolsOnly) + SaidTokens(last.user, last.at, last.part, toolsOnly)
  {
    assert (init + [last])[..|init|] == init;
    hide SaidTokens, TurnsIn;
  }

  lemma NothingAgrees(toolsOnly: bool)
    ensures Agree([], [], toolsOnly) && TokensOf([], toolsOnly) == []
  {
  }

  lemma {:induction false} TokensAgree(pieces: seq<Piece>, toolsOnly: bool)
    ensures Agree(pieces, TokensOf(pieces, toolsOnly), toolsOnly)
  {
    hide Agree, SaidTokens, TokensOf, TurnsIn;
    if pieces == [] {
      NothingAgrees(toolsOnly);
    } else {
      var init, last := pieces[..|pieces| - 1], pieces[|pieces| - 1];
      TokensAgree(init, toolsOnly);
      TokensStep(init, last, toolsOnly);
      assert pieces == init + [last];
      match last
      case NewTurn(at) => TurnStep(init, at, TokensOf(init, toolsOnly), toolsOnly);
      case Said(user, at, part) => SaidStep(init, user, at, part, TokensOf(init, toolsOnly), toolsOnly);
    }
  }

  /** The whole trace but for the model blocks: the lines are, in order, exactly those the
      events call for, followed by the true counts. */
  lemma TraceShowsTheEvents(events: seq<Event>, toolsOnly: bool, lastN: int)
    ensures var shown := Shown(events, lastN);
            var pieces := Pieces(shown);
            OtherLines(Trace(events, toolsOnly, lastN)) ==
            Lines(pieces, toolsOnly) + [Summary(|shown|, CallsIn(pieces), ErrorsIn(pieces))]
  {
    var shown := Shown(events, lastN);
    var tokens, pieces := Tokens(shown, toolsOnly), Pieces(shown);
    TokensAreThosePieces(shown, toolsOnly);
    TokensAgree(pieces, toolsOnly);
    ItemsAreProper(tokens, toolsOnly);
    GroupingConserves(Items(tokens, toolsOnly));
    var summary := Summary(|shown|, CallsIn(pieces), ErrorsIn(pieces));
    OneLine(summary);
    BlockTextConcat(Grouped(Items(tokens, toolsOnly)), [summary]);
    hide OtherLines, Grouped, Items, AllLines, Lines, Pieces, Tokens;
  }

  // ---------------------------------------------------------------- kind by kind

  function Turns(): Line -> bool { (l: Line) => l.TurnLine? }
  function Users(): Line -> bool { (l: Line) => l.UserBlock? }
  function Thoughts(): Line -> bool { (l: Line) => l.ThinkingBlock? }
  function Calls(): Line -> bool { (l: Line) => l.CallLine? }
  function Errors(): Line -> bool { (l: Line) => l.ErrorLine? }

  /** The texts the events attribute to the user, or the thoughts, in order. */
  function Texts(pieces: seq<Piece>, thought: bool): seq<string> {
    if pieces == [] then [] else Texts(pieces[..|pieces| - 1], thought) + TextsIn(pieces[|pieces| - 1], thought)
  }

  function TextsIn(p: Piece, thought: bool): seq<string> {
    if p.Said? && p.part.text != "" && p.part.thought == thought && (thought || p.user) then [p.part.text] else []
  }

  function CallsMade(pieces: seq<Piece>): seq<(Call, Time)> {
    if pieces == [] then [] else
      var p := pieces[|pieces| - 1];
      CallsMade(pieces[..|pieces| - 1]) + (if p.Said? && p.part.call.Some? then [(p.part.call.value, p.at)] else [])
  }

  ghost predicate Spell(lines: seq<Line>, texts: seq<string>) {
    |lines| == |texts| && forall k :: 0 <= k < |lines| ==>
      (lines[k].UserBlock? || lines[k].ThinkingBlock?) && lines[k].text == texts[k]
  }

  ghost predicate Shows(lines: seq<Line>, calls: seq<(Call, Time)>) {
    |lines| == |calls| && forall k :: 0 <= k < |lines| ==> lines[k] == CallLine(calls[k].0, calls[k].1)
  }

  ghost predicate Numbered(lines: seq<Line>) {
    forall k :: 0 <= k < |lines| ==> lines[k].TurnLine? && lines[k].number == k + 1
  }

  lemma LastOfKind(pieces: seq<Piece>, p: Line -> bool)
    requires pieces != []
    ensures Filter(Lines(pieces, false), p) == Filter(Lines(pieces[..|pieces| - 1], false), p) + LastKept(pieces, p)
  {
    hide TookMs, TurnsIn, Filter, Kept, TextLine, CallLines, Answers;
    FilterConcat(Lines(pieces[..|pieces| - 1], false), LastLines(pieces, false), p);
    match pieces[|pieces| - 1]
    case NewTurn(at) => KeptIsFilter([TurnLine(TurnsIn(pieces), at)], p);
    case Said(user, at, part) =>
      var a, b, c := TextLine(user, part, false), CallLines(at, part), Answers(pieces, at, part);
      AtMostOne(pieces, user, at, part);
      FilterConcat(a, b, p);
      FilterConcat(a + b, c, p);
      KeptIsFilter(a, p);
      KeptIsFilter(b, p);
      KeptIsFilter(c, p);
  }

  lemma AtMostOne(pieces: seq<Piece>, user: bool, at: Time, part: Part)
    ensures |TextLine(user, part, false)| <= 1 && |CallLines(at, part)| <= 1 && |Answers(pieces, at, part)| <= 1
  {
    hide ResponseLine;
  }

  /** Of the last piece's lines those that satisfy p. */
  function LastKept(pieces: seq<Piece>, p: Line -> bool): seq<Line>
    requires pieces != []
  {
    match pieces[|pieces| - 1]
    case NewTurn(at) => Kept([TurnLine(TurnsIn(pieces), at)], p)
    case Said(user, at, part) =>
      Kept(TextLine(user, part, false), p) + Kept(CallLines(at, part), p) + Kept(Answers(pieces, at, part), p)
  }

  /** Filter on at most one line. */
  function Kept(lines: seq<Line>, p: Line -> bool): seq<Line> {
    if lines != [] && p(lines[0]) then [lines[0]] else []
  }

  lemma KeptIsFilter(lines: seq<Line>, p: Line -> bool)
    requires |lines| <= 1
    ensures Filter(lines, p) == Kept(lines, p)
  {
    hide Filter;
    if lines == [] {
      FilterOne(UserBlock(""), p);
    } else {
      FilterOne(lines[0], p);
      assert lines == [lines[0]];
    }
  }

  function TextsOf(thought: bool): Line -> bool { if thought then Thoughts() else Users() }

  lemma KeptText(user: bool, part: Part, thought: bool)
    ensures Spell(Kept(TextLine(user, part, false), TextsOf(thought)), TextsIn(Said(user, None, part), thought))
  {
  }

  lemma LastText(pieces: seq<Piece>, thought: bool)
    requires pieces != []
    ensures Spell(LastKept(pieces, TextsOf(thought)), TextsIn(pieces[|pieces| - 1], thought))
  {
    match pieces[|pieces| - 1]
    case NewTurn(at) =>
    case Said(user, at, part) =>
      KeptText(user, part, thought);
      assert Kept(CallLines(at, part), TextsOf(thought)) == [];
      assert Kept(Answers(pieces, at, part), TextsOf(thought)) == [] by { hide TookMs; }
      Nothing(Kept(TextLine(user, part, false), TextsOf(thought)));
      hide TookMs, Kept, TextsOf, Answers, CallLines, TextLine, Spell;
  }

  lemma SpellNothing()
    ensures Spell([], [])
  {
  }

  lemma SpellMore(a: seq<Line>, b: seq<Line>, s: seq<string>, t: seq<string>)
    requires Spell(a, s) && Spell(b, t)
    ensures Spell(a + b, s + t)
  {
  }

  lemma {:induction false} TextsAreSpelled(pieces: seq<Piece>, thought: bool)
    ensures Spell(Filter(Lines(pieces, false), TextsOf(thought)), Texts(pieces, thought))
  {
    hide Filter, Lines, LastKept, TextsOf, Spell;
    if pieces == [] {
      NoLinesOf(TextsOf(thought));
      SpellNothing();
    } else {
      var init := pieces[..|pieces| - 1];
      TextsAreSpelled(init, thought);
      LastOfKind(pieces, TextsOf(thought));
      LastText(pieces, thought);
      SpellMore(Filter(Lines(init, false), TextsOf(thought)), LastKept(pieces, TextsOf(thought)),
                Texts(init, thought), TextsIn(pieces[|pieces| - 1], thought));
    }
  }

  lemma NoLinesOf(p: Line -> bool)
    ensures Filter(Lines([], false), p) == []
  {
  }

  lemma {:induction false} CallsAreShown(pieces: seq<Piece>)
    ensures Shows(Filter(Lines(pieces, false), Calls()), CallsMade(pieces))
    ensures |CallsMade(pieces)| == CallsIn(pieces)
  {
    hide Filter, Lines, TookMs, TurnsIn;
    if pieces == [] {
      NoLinesOf(Calls());
    } else {
      CallsAreShown(pieces[..|pieces| - 1]);
      LastOfKind(pieces, Calls());
    }
  }

  lemma LastTurnLine(pieces: seq<Piece>)
    requires pieces != []
    ensures LastKept(pieces, Turns()) ==
      if pieces[|pieces| - 1].NewTurn? then [TurnLine(TurnsIn(pieces), pieces[|pieces| - 1].at)] else []
    ensures TurnsIn(pieces) == TurnsIn(pieces[..|pieces| - 1]) + (if pieces[|pieces| - 1].NewTurn? then 1 else 0)
  {
    match pieces[|pieces| - 1]
    case NewTurn(at) =>
    case Said(user, at, part) =>
      assert Kept(TextLine(user, part, false), Turns()) == [] && Kept(CallLines(at, part), Turns()) == [];
      assert Kept(Answers(pieces, at, part), Turns()) == [] by { hide TookMs; }
  }

  lemma {:induction false} TurnsAreNumbered(pieces: seq<Piece>)
    ensures Numbered(Filter(Lines(pieces, false), Turns())) && |Filter(Lines(pieces, false), Turns())| == TurnsIn(pieces)
  {
    hide Filter, Lines, LastKept, TurnsIn;
    if pieces == [] {
      NoLinesOf(Turns());
      assert TurnsIn([]) == 0 by { NoTurns(); }
    } else {
      TurnsAreNumbered(pieces[..|pieces| - 1]);
      LastOfKind(pieces, Turns());
      LastTurnLine(pieces);
    }
  }

  lemma NoTurns()
    ensures TurnsIn([]) == 0
  {
  }

  lemma {:induction false} ErrorsAreCounted(pieces: seq<Piece>)
    ensures |Filter(Lines(pieces, false), Errors())| == ErrorsIn(pieces)
  {
    hide Filter, Lines, TookMs, TurnsIn;
    if pieces == [] {
      NoLinesOf(Errors());
    } else {
      ErrorsAreCounted(pieces[..|pieces| - 1]);
      LastOfKind(pieces, Errors());
    }
  }

  lemma {:induction false} BlocksAside(lines: seq<Line>, p: Line -> bool)
    requires forall l: Line :: l.ModelBlock? ==> !p(l)
    ensures Filter(OtherLines(lines), p) == Filter(lines, p)
  {
    if lines != [] {
      var init, last := lines[..|lines| - 1], lines[|lines| - 1];
      BlocksAside(init, p);
      FilterConcat(OtherLines(init), RestOfLine(last), p);
      FilterOne(last, p);
    }
  }

  /** Where the lines of one kind in the trace come from. */
  lemma KindInTrace(events: seq<Event>, lastN: int, p: Line -> bool)
    requires forall l: Line :: l.ModelBlock? || l.Summary? ==> !p(l)
    ensures Filter(Trace(events, false, lastN), p) == Filter(Lines(Pieces(Shown(events, lastN)), false), p)
  {
    var shown := Shown(events, lastN);
    var pieces := Pieces(shown);
    var summary := Summary(|shown|, CallsIn(pieces), ErrorsIn(pieces));
    TraceShowsTheEvents(events, false, lastN);
    hide Lines, Pieces, Trace, OtherLines, Filter;
    BlocksAside(Trace(events, false, lastN), p);
    FilterConcat(Lines(pieces, false), [summary], p);
    FilterOne(summary, p);
  }

  /** Kind by kind: user blocks spell the user's texts and thinking blocks the thoughts, call
      lines are the calls with their times, turns are numbered from one, all in order; and the
      last line counts the call lines and the error lines. */
  lemma TraceKindByKind(events: seq<Event>, lastN: int)
    ensures var trace := Trace(events, false, lastN);
            var pieces := Pieces(Shown(events, lastN));
      && Spell(Filter(trace, Users()), Texts(pieces, false))
      && Spell(Filter(trace, Thoughts()), Texts(pieces, true))
      && Shows(Filter(trace, Calls()), CallsMade(pieces))
      && Numbered(Filter(trace, Turns())) && |Filter(trace, Turns())| == TurnsIn(pieces)
      && trace != []
      && trace[|trace| - 1] == Summary(|Shown(events, lastN)|, |Filter(trace, Calls())|, |Filter(trace, Errors())|)
  {
    var pieces := Pieces(Shown(events, lastN));
    KindInTrace(events, lastN, Users());
    KindInTrace(events, lastN, Thoughts());
    KindInTrace(events, lastN, Calls());
    KindInTrace(events, lastN, Turns());
    KindInTrace(events, lastN, Errors());
    TextsAreSpelled(pieces, false);
    TextsAreSpelled(pieces, true);
    CallsAreShown(pieces);
    TurnsAreNumbered(pieces);
    ErrorsAreCounted(pieces);
    TokensAreThosePieces(Shown(events, lastN), false);
    TokensAgree(pieces, false);
    hide Filter, Pieces, Lines, Spell, Shows, Numbered;
  }
}
