/** The in-sandbox tool server: one reply per request line, in order, with the credential
    cache consulted only for requests that are dispatched. */
module NodeServer {
  import opened Seqs
  import V = SessionVault

  datatype Arg = Text(text: string) | Other(json: string)

  datatype Line = Blank | BadJson | Request(id: string, tool: string, args: map<string, Arg>)

  /** How a tool's execution ended. */
  datatype Execution = Result(json: string) | ToolError(message: string)

  datatype Body = Executed(execution: Execution) | InvalidJson | MissingFields

  datatype Response = Response(id: string, body: Body)

  /** The surroundings: tool execution, the file history with the stat and load instants of
      each dispatch, vault parsing, and which writes succeed. */
  datatype World = World(
    exec: (string, map<string, Arg>, string, Option<V.Creds>) -> Execution,
    history: V.History,
    calls: nat -> V.Call,
    decode: V.Decoder,
    writes: nat -> bool)
  {
    ghost predicate Valid() {
      forall k :: V.Within(history, calls(k))
    }
  }

  predicate Dispatches(line: Line) { line.Request? && line.id != "" && line.tool != "" }

  function CountDispatched(lines: seq<Line>): nat {
    if lines == [] then 0
    else CountDispatched(lines[..|lines| - 1]) + (if Dispatches(lines[|lines| - 1]) then 1 else 0)
  }

  function CountAnswered(lines: seq<Line>): nat {
    if lines == [] then 0
    else CountAnswered(lines[..|lines| - 1]) + (if lines[|lines| - 1].Blank? then 0 else 1)
  }

  /** The vault after the first n dispatches. */
  ghost function VaultAfter(w: World, n: nat): V.Vault
    requires w.Valid()
  {
    if n == 0 then V.FRESH_VAULT else V.After(VaultAfter(w, n - 1), w.history, w.calls(n - 1), w.decode)
  }

  function CallerOf(args: map<string, Arg>): string {
    if "_caller" in args && args["_caller"].Text? then args["_caller"].text else ""
  }

  function ToolArgs(args: map<string, Arg>): map<string, Arg> {
    if "_caller" in args && args["_caller"].Text? then args - {"_caller"} else args
  }

  /** The reply to a line that follows the given lines. */
  ghost function Reply(w: World, before: seq<Line>, line: Line): Response
    requires w.Valid() && !line.Blank?
  {
    if line.BadJson? then Response("", InvalidJson)
    else if !Dispatches(line) then Response(line.id, MissingFields)
    else Response(line.id, Executed(w.exec(line.tool, ToolArgs(line.args), CallerOf(line.args),
                                           VaultAfter(w, CountDispatched(before) + 1).store)))
  }

  /** The replies that reach the caller. */
  ghost function Delivered(w: World, lines: seq<Line>): seq<Response>
    requires w.Valid()
  {
    if lines == [] then [] else
      var before, line := lines[..|lines| - 1], lines[|lines| - 1];
      Delivered(w, before) +
      (if !line.Blank? && w.writes(CountAnswered(before)) then [Reply(w, before, line)] else [])
  }

  /** A dispatched reply that could not be written ends the loop after this line. */
  ghost predicate Breaks(w: World, before: seq<Line>, line: Line) {
    Dispatches(line) && !w.writes(CountAnswered(before))
  }

  lemma DeliveredStep(w: World, before: seq<Line>, line: Line)
    requires w.Valid()
    ensures Delivered(w, before + [line]) ==
      Delivered(w, before) + (if !line.Blank? && w.writes(CountAnswered(before)) then [Reply(w, before, line)] else [])
    ensures CountAnswered(before + [line]) == CountAnswered(before) + (if line.Blank? then 0 else 1)
    ensures CountDispatched(before + [line]) == CountDispatched(before) + (if Dispatches(line) then 1 else 0)
  {
    assert (before + [line])[..|before|] == before;
    hide Reply, Dispatches;
  }

  class Server {
    var vault: V.SessionVault
    var out: seq<Response>
    var attempts: nat
    var dispatched: nat

    constructor ()
      ensures fresh(vault) && vault.Value() == V.FRESH_VAULT
      ensures out == [] && attempts == 0 && dispatched == 0
    {
      vault := new V.SessionVault();
      out, attempts, dispatched := [], 0, 0;
    }

    /** Writes one response; a failed write delivers nothing. */
    method Encode(r: Response, w: World) returns (ok: bool)
      modifies this`out, this`attempts
      ensures ok == w.writes(old(attempts)) && attempts == old(attempts) + 1
      ensures out == old(out) + (if ok then [r] else [])
    {
      ok := w.writes(attempts);
      attempts := attempts + 1;
      if ok { out := out + [r]; }
    }

    /** Splits off the caller, consults the vault, runs the tool and writes its outcome. */
    method Dispatch(w: World, line: Line, ghost before: seq<Line>) returns (ok: bool)
      requires w.Valid() && Dispatches(line)
      requires vault.Value() == VaultAfter(w, CountDispatched(before)) && dispatched == CountDispatched(before)
      modifies this, vault
      ensures vault == old(vault) && dispatched == old(dispatched) + 1 && attempts == old(attempts) + 1
      ensures vault.Value() == VaultAfter(w, CountDispatched(before) + 1)
      ensures ok == w.writes(old(attempts))
      ensures out == old(out) + (if ok then [Reply(w, before, line)] else [])
    {
      assert VaultAfter(w, dispatched + 1)
          == V.After(VaultAfter(w, dispatched), w.history, w.calls(dispatched), w.decode);
      hide VaultAfter, CountDispatched;
      var caller, rest := "", line.args;
      if "_caller" in line.args && line.args["_caller"].Text? {
        caller := line.args["_caller"].text;
        rest := line.args - {"_caller"};
      }
      var creds := vault.CredentialStore(w.history, w.calls(dispatched), w.decode);
      dispatched := dispatched + 1;
      ok := Encode(Response(line.id, Executed(w.exec(line.tool, rest, caller, creds))), w);
    }

    method Handle(w: World, line: Line, ghost before: seq<Line>) returns (ok: bool)
      requires w.Valid()
      requires vault.Value() == VaultAfter(w, CountDispatched(before)) && dispatched == CountDispatched(before)
      requires attempts == CountAnswered(before) && out == Delivered(w, before)
      modifies this, vault
      ensures vault == old(vault)
      ensures vault.Value() == VaultAfter(w, CountDispatched(before + [line]))
      ensures dispatched == CountDispatched(before + [line]) && attempts == CountAnswered(before + [line])
      ensures out == Delivered(w, before + [line])
      ensures ok <==> !Breaks(w, before, line)
    {
      DeliveredStep(w, before, line);
      assert line.Blank? || line.BadJson? ==> !Dispatches(line);
      hide Delivered, CountAnswered, CountDispatched, VaultAfter, ToolArgs, CallerOf;
      ok := true;
      match line {
        case Blank =>
        case BadJson =>
          var _ := Encode(Response("", InvalidJson), w);
        case Request(id, tool, args) =>
          if id == "" || tool == "" {
            var _ := Encode(Response(id, MissingFields), w);
          } else {
            ok := Dispatch(w, line, before);
          }
      }
    }

    /** Reads lines until input ends or a dispatched reply cannot be written. */
    method Serve(w: World, lines: seq<Line>) returns (n: nat)
      requires w.Valid() && vault.Value() == V.FRESH_VAULT && out == [] && attempts == 0 && dispatched == 0
      modifies this, vault
      ensures n <= |lines| && out == Delivered(w, lines[..n])
      ensures vault == old(vault) && vault.Value() == VaultAfter(w, CountDispatched(lines[..n]))
      ensures n < |lines| ==> n > 0 && lines[n - 1].Request? && lines[n - 1].id != "" && lines[n - 1].tool != ""
                              && !w.writes(CountAnswered(lines[..n - 1]))
      ensures forall i :: 0 <= i < n - 1 && lines[i].Request? && lines[i].id != "" && lines[i].tool != "" ==>
                w.writes(CountAnswered(lines[..i]))
    {
      n := 0;
      assert lines[..0] == [];
      assert VaultAfter(w, CountDispatched([])) == V.FRESH_VAULT && CountAnswered([]) == 0 && Delivered(w, []) == [];
      hide VaultAfter, CountDispatched, CountAnswered, Delivered, Reply;
      while n < |lines|
        invariant 0 <= n <= |lines| && vault == old(vault)
        invariant vault.Value() == VaultAfter(w, CountDispatched(lines[..n])) && dispatched == CountDispatched(lines[..n])
        invariant attempts == CountAnswered(lines[..n]) && out == Delivered(w, lines[..n])
        invariant forall i :: 0 <= i < n ==> !Breaks(w, lines[..i], lines[i])
      {
        assert lines[..n] + [lines[n]] == lines[..n + 1];
        var ok := Handle(w, lines[n], lines[..n]);
        n := n + 1;
        if !ok {
          return;
        }
      }
    }
  }

  /** The reply to the i-th line is where the count of answered lines says. */
  ghost predicate AnsweredAt(w: World, lines: seq<Line>, i: nat)
    requires w.Valid() && i < |lines| && !lines[i].Blank?
  {
    var k := CountAnswered(lines[..i]);
    k < |Delivered(w, lines)| && Delivered(w, lines)[k] == Reply(w, lines[..i], lines[i])
  }

  lemma AnsweredAtStays(w: World, before: seq<Line>, line: Line, i: nat)
    requires w.Valid() && i < |before| && !before[i].Blank? && AnsweredAt(w, before, i)
    ensures AnsweredAt(w, before + [line], i)
  {
    DeliveredStep(w, before, line);
    hide Reply, Delivered, CountAnswered;
    assert (before + [line])[..i] == before[..i] && (before + [line])[i] == before[i];
  }

  /** With every write succeeding: one reply per non-blank line, in order; the k-th reply
      answers the k-th non-blank line. */
  lemma {:induction false} OneReplyPerLine(w: World, lines: seq<Line>)
    requires w.Valid() && forall k :: w.writes(k)
    ensures |Delivered(w, lines)| == CountAnswered(lines)
    ensures forall i :: 0 <= i < |lines| && !lines[i].Blank? ==> AnsweredAt(w, lines, i)
  {
    if lines != [] {
      var before, line := lines[..|lines| - 1], lines[|lines| - 1];
      assert lines == before + [line];
      OneReplyPerLine(w, before);
      DeliveredStep(w, before, line);
      hide Reply, Delivered, CountAnswered;
      forall i | 0 <= i < |lines| && !lines[i].Blank? ensures AnsweredAt(w, lines, i) {
        if i < |before| {
          AnsweredAtStays(w, before, line, i);
        } else {
          assert lines[..i] == before;
        }
      }
    }
  }

  /** Each reply echoes the identifier of its line; a malformed line has none. */
  lemma RepliesEchoIdentifiers(w: World, lines: seq<Line>, i: nat)
    requires w.Valid() && (forall k :: w.writes(k)) && i < |lines| && !lines[i].Blank?
    ensures var k := CountAnswered(lines[..i]);
            k < |Delivered(w, lines)| && Delivered(w, lines)[k].id == (if lines[i].Request? then lines[i].id else "")
  {
    OneReplyPerLine(w, lines);
    assert AnsweredAt(w, lines, i);
    hide Delivered, CountAnswered;
  }

  // ---------------------------------------------------------------- what the replies hold

  /** The lines that are answered: all but the blank ones. */
  function Asked(lines: seq<Line>): seq<Line> { Filter(lines, AskTest()) }

  function AskTest(): Line -> bool { (l: Line) => !l.Blank? }

  predicate Complete(line: Line) { line.Request? && line.id != "" && line.tool != "" }

  function CompleteTest(): Line -> bool { (l: Line) => Complete(l) }

  /** How many complete requests there are. */
  function Completed(lines: seq<Line>): nat { |Filter(lines, CompleteTest())| }

  /** The vault after the complete requests among the lines, one consultation each. */
  ghost function VaultOver(w: World, lines: seq<Line>): V.Vault
    requires w.Valid()
  {
    if lines == [] then V.FRESH_VAULT else
      var before := lines[..|lines| - 1];
      if Complete(lines[|lines| - 1])
      then V.After(VaultOver(w, before), w.history, w.calls(Completed(before)), w.decode)
      else VaultOver(w, before)
  }

  /** What the tool gets: the arguments without a textual `_caller`, all else unchanged, and
      beside them that text or nothing. */
  ghost predicate SplitCaller(args: map<string, Arg>, rest: map<string, Arg>, caller: string) {
    && (forall k :: k in rest <==> k in args && !(k == "_caller" && args[k].Text?))
    && (forall k :: k in rest ==> rest[k] == args[k])
    && (if "_caller" in args && args["_caller"].Text? then args["_caller"] == Text(caller) else caller == "")
  }

  /** The body is what the tool makes of the split arguments with these credentials. */
  ghost predicate Ran(w: World, tool: string, args: map<string, Arg>, creds: Option<V.Creds>, body: Body,
                      rest: map<string, Arg>, caller: string) {
    SplitCaller(args, rest, caller) && body == Executed(w.exec(tool, rest, caller, creds))
  }

  /** The reply to the last of the lines: it echoes the line's identifier; malformed and
      incomplete lines are named as such and anything else is the tool's execution. */
  ghost predicate Answers(w: World, lines: seq<Line>, reply: Response)
    requires w.Valid() && lines != []
  {
    match lines[|lines| - 1]
    case Blank => false
    case BadJson => reply == Response("", InvalidJson)
    case Request(id, tool, args) =>
      && reply.id == id
      && (reply.body == MissingFields <==> id == "" || tool == "")
      && (id != "" && tool != "" ==>
            exists rest, caller :: Ran(w, tool, args, VaultOver(w, lines).store, reply.body, rest, caller))
  }

  lemma SplitIsUnique(args: map<string, Arg>, rest: map<string, Arg>, caller: string)
    ensures SplitCaller(args, rest, caller) <==> rest == ToolArgs(args) && caller == CallerOf(args)
  {
  }

  lemma FilterMore(before: seq<Line>, line: Line, p: Line -> bool)
    ensures Filter(before + [line], p) == Filter(before, p) + (if p(line) then [line] else [])
  {
    assert (before + [line])[..|before|] == before;
  }

  lemma VaultOverStep(w: World, before: seq<Line>, line: Line)
    requires w.Valid()
    ensures VaultOver(w, before + [line]) ==
      if Complete(line) then V.After(VaultOver(w, before), w.history, w.calls(Completed(before)), w.decode)
      else VaultOver(w, before)
    ensures Completed(before + [line]) == Completed(before) + (if Complete(line) then 1 else 0)
  {
    assert (before + [line])[..|before|] == before;
    FilterMore(before, line, CompleteTest());
  }

  /** Blank lines aside nothing changes, and the count of dispatches is the count of complete requests. */
  lemma {:induction false} VaultOverLines(w: World, lines: seq<Line>)
    requires w.Valid()
    ensures VaultOver(w, lines) == VaultAfter(w, CountDispatched(lines)) && Completed(lines) == CountDispatched(lines)
    ensures VaultOver(w, Asked(lines)) == VaultOver(w, lines) && Completed(Asked(lines)) == Completed(lines)
  {
    if lines != [] {
      var before, line := lines[..|lines| - 1], lines[|lines| - 1];
      assert lines == before + [line];
      VaultOverLines(w, before);
      VaultOverStep(w, before, line);
      FilterMore(before, line, AskTest());
      assert Asked(lines) == if line.Blank? then Asked(before) else Asked(before) + [line];
      VaultOverStep(w, Asked(before), line);
      hide VaultOver, Completed, Filter, Asked;
    }
  }

  /** The vault that a complete request's tool sees. */
  lemma VaultOfReply(w: World, before: seq<Line>, line: Line)
    requires w.Valid() && Dispatches(line)
    ensures VaultOver(w, Asked(before) + [line]) == VaultAfter(w, CountDispatched(before) + 1)
  {
    hide Filter, Asked;
    VaultOverLines(w, before);
    VaultOverStep(w, Asked(before), line);
    hide VaultOver, Completed, CountDispatched;
  }

  lemma ReplyRan(w: World, before: seq<Line>, line: Line)
    requires w.Valid() && Dispatches(line)
    ensures Ran(w, line.tool, line.args, VaultOver(w, Asked(before) + [line]).store, Reply(w, before, line).body,
                ToolArgs(line.args), CallerOf(line.args))
  {
    hide VaultOver, CountDispatched, VaultAfter, Asked, SplitCaller, ToolArgs, CallerOf;
    VaultOfReply(w, before, line);
    SplitIsUnique(line.args, ToolArgs(line.args), CallerOf(line.args));
  }

  lemma ReplyAnswers(w: World, before: seq<Line>, line: Line)
    requires w.Valid() && !line.Blank?
    ensures Asked(before + [line]) == Asked(before) + [line]
    ensures Answers(w, Asked(before + [line]), Reply(w, before, line))
  {
    hide Filter, VaultOver, CountDispatched, VaultAfter, Ran, ToolArgs, CallerOf;
    FilterMore(before, line, AskTest());
    assert Asked(before + [line]) == Asked(before) + [line];
    hide Asked;
    var asked := Asked(before) + [line];
    assert asked[|asked| - 1] == line;
    if Dispatches(line) { ReplyRan(w, before, line); }
  }

  /** How many of the first k writes succeed. */
  function Succeeding(w: World, k: nat): nat {
    if k == 0 then 0 else Succeeding(w, k - 1) + (if w.writes(k - 1) then 1 else 0)
  }

  /** The reply to the k-th line asked stands where the successful writes before it say. */
  ghost predicate RepliedTo(w: World, asked: seq<Line>, replies: seq<Response>, k: nat)
    requires w.Valid() && k < |asked|
  {
    Succeeding(w, k) < |replies| && Answers(w, asked[..k + 1], replies[Succeeding(w, k)])
  }

  lemma RepliedToStays(w: World, asked: seq<Line>, replies: seq<Response>, line: Line, more: seq<Response>, k: nat)
    requires w.Valid() && k < |asked| && RepliedTo(w, asked, replies, k)
    ensures RepliedTo(w, asked + [line], replies + more, k)
  {
    assert (asked + [line])[..k + 1] == asked[..k + 1];
    hide Answers;
  }

  ghost predicate AllRepliedTo(w: World, asked: seq<Line>, replies: seq<Response>)
    requires w.Valid()
  {
    && |replies| == Succeeding(w, |asked|)
    && forall k :: 0 <= k < |asked| && w.writes(k) ==> RepliedTo(w, asked, replies, k)
  }

  lemma OneMoreAsked(w: World, asked: seq<Line>, replies: seq<Response>, line: Line, reply: Response)
    requires w.Valid() && AllRepliedTo(w, asked, replies) && Answers(w, asked + [line], reply)
    ensures AllRepliedTo(w, asked + [line], replies + (if w.writes(|asked|) then [reply] else []))
  {
    hide Answers;
    var all, more := asked + [line], if w.writes(|asked|) then [reply] else [];
    forall k | 0 <= k < |all| && w.writes(k) ensures RepliedTo(w, all, replies + more, k) {
      if k < |asked| {
        RepliedToStays(w, asked, replies, line, more, k);
      } else {
        assert all[..k + 1] == all;
      }
    }
  }

  /** The replies delivered are, in order, the answers to the lines that are not blank, those
      apart whose write fails. */
  lemma {:induction false} RepliesAnswer(w: World, lines: seq<Line>)
    requires w.Valid()
    ensures CountAnswered(lines) == |Asked(lines)| && AllRepliedTo(w, Asked(lines), Delivered(w, lines))
  {
    if lines != [] {
      var before, line := lines[..|lines| - 1], lines[|lines| - 1];
      assert lines == before + [line];
      RepliesAnswer(w, before);
      DeliveredStep(w, before, line);
      FilterMore(before, line, AskTest());
      assert line.Blank? ==> Asked(lines) == Asked(before);
      hide Reply, Delivered, CountAnswered, Filter, Answers, Asked, AllRepliedTo;
      if !line.Blank? {
        ReplyAnswers(w, before, line);
        OneMoreAsked(w, Asked(before), Delivered(w, before), line, Reply(w, before, line));
      }
    }
  }

  /** The lines that are dispatched. */
  function Served(lines: seq<Line>): seq<Line> { Filter(lines, DispatchTest()) }

  function DispatchTest(): Line -> bool { (l: Line) => Dispatches(l) }

  /** The replies to the dispatched lines, in order. */
  ghost function DispatchReplies(w: World, lines: seq<Line>): seq<Response>
    requires w.Valid()
  {
    if lines == [] then [] else
      var before, line := lines[..|lines| - 1], lines[|lines| - 1];
      DispatchReplies(w, before) + (if Dispatches(line) then [Reply(w, before, line)] else [])
  }

  lemma {:induction false} ServedCount(lines: seq<Line>)
    ensures CountDispatched(Served(lines)) == CountDispatched(lines)
  {
    if lines != [] {
      var before, line := lines[..|lines| - 1], lines[|lines| - 1];
      ServedCount(before);
      if Dispatches(line) {
        assert (Served(before) + [line])[..|Served(before)|] == Served(before);
      } else {
        assert Served(lines) == Served(before);
      }
      hide Served;
    }
  }

  /** Blank, malformed and incomplete lines leave no trace in the vault and in the other
      replies: both are those of a session with the dispatched lines alone. */
  lemma {:induction false} OtherLinesDoNotInterfere(w: World, lines: seq<Line>)
    requires w.Valid() && forall k :: w.writes(k)
    ensures VaultAfter(w, CountDispatched(lines)) == VaultAfter(w, CountDispatched(Served(lines)))
    ensures DispatchReplies(w, lines) == Delivered(w, Served(lines))
  {
    ServedCount(lines);
    if lines != [] {
      var before, line := lines[..|lines| - 1], lines[|lines| - 1];
      OtherLinesDoNotInterfere(w, before);
      ServedCount(before);
      if Dispatches(line) {
        assert Served(lines) == Served(before) + [line];
        DeliveredStep(w, Served(before), line);
        assert Reply(w, before, line) == Reply(w, Served(before), line);
      } else {
        assert Served(lines) == Served(before);
      }
      hide Reply, Dispatches, Delivered, Served, VaultAfter;
    }
  }
}
