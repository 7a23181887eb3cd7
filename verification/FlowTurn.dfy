/** The remote flow runner: each turn folds a stream of events into a decision about what
    the next turn sends. */
module FlowTurn {
  import opened Seqs

  const BOX_TOP := '\U{256D}'
  const BOX_BOTTOM := '\U{2570}'

  datatype Choice = Label(text: string) | NotText

  datatype NodePayload = NodePayload(node: string, kind: string, silent: bool)

  /** One stream event; a payload that does not parse is None. */
  datatype Event =
    | Node(node: Option<NodePayload>)
    | Text(text: Option<string>)
    | InputRequest(options: Option<seq<Choice>>)
    | Other

  datatype Output = AgentPrefix | Print(text: string)

  datatype Kind = Input | Approval

  // ---------------------------------------------------------------- the simple specification

  predicate IsEnd(ev: Event) { ev.Node? && ev.node.Some? && ev.node.value.node == "END" }

  ghost predicate HasEnd(events: seq<Event>) { exists ev :: ev in events && IsEnd(ev) }

  /** A request is an approval exactly when its first option is the text Yes or No. */
  function KindOf(options: seq<Choice>): Kind {
    if options != [] && options[0].Label? && (options[0].text == "Yes" || options[0].text == "No") then Approval else Input
  }

  /** The kind of the last request that parses. */
  function LastRequest(events: seq<Event>): Option<Kind> {
    if events == [] then None
    else var ev := events[|events| - 1];
         if ev.InputRequest? && ev.options.Some? then Some(KindOf(ev.options.value)) else LastRequest(events[..|events| - 1])
  }

  /** The last node that parses, carried over from earlier turns. */
  function LastNode(events: seq<Event>, current: string): string {
    if events == [] then current
    else var ev := events[|events| - 1];
         if ev.Node? && ev.node.Some? then ev.node.value.node else LastNode(events[..|events| - 1], current)
  }

  function Texts(events: seq<Event>): seq<string> {
    if events == [] then []
    else var ev := events[|events| - 1];
         Texts(events[..|events| - 1]) + (if ev.Text? && ev.text.Some? then [ev.text.value] else [])
  }

  /** Some text opened a box that no text since has closed. */
  ghost predicate BoxOpenAfter(texts: seq<string>) {
    exists j :: 0 <= j < |texts| && BOX_TOP in texts[j] && NoneCloses(texts[j..])
  }

  ghost predicate NoneCloses(texts: seq<string>) {
    forall t :: t in texts ==> BOX_BOTTOM !in t
  }

  ghost predicate InToolBox(texts: seq<string>, k: nat)
    requires k < |texts|
  {
    BOX_TOP in texts[k] || BoxOpenAfter(texts[..k])
  }

  /** The texts outside tool boxes, joined. */
  ghost function OutsideText(texts: seq<string>): string {
    if texts == [] then ""
    else OutsideText(texts[..|texts| - 1]) + (if InToolBox(texts, |texts| - 1) then "" else texts[|texts| - 1])
  }

  function Printed(texts: seq<string>): seq<Output> {
    (if texts == [] then [] else [AgentPrefix]) + seq(|texts|, i requires 0 <= i < |texts| => Print(texts[i]))
  }

  datatype Decision = EndFlow | AskInput | AskApproval | StopHere

  ghost function Decide(events: seq<Event>): Decision {
    if HasEnd(events) then EndFlow
    else match LastRequest(events)
         case Some(Input) => AskInput
         case Some(Approval) => AskApproval
         case None => StopHere
  }

  // ---------------------------------------------------------------- the event loop of one turn

  lemma BoxStep(texts: seq<string>, t: string)
    ensures BoxOpenAfter(texts + [t]) <==> (BoxOpenAfter(texts) || BOX_TOP in t) && BOX_BOTTOM !in t
  {
    var more := texts + [t];
    if BoxOpenAfter(texts) && BOX_BOTTOM !in t {
      var j :| 0 <= j < |texts| && BOX_TOP in texts[j] && NoneCloses(texts[j..]);
      assert more[j..] == texts[j..] + [t];
      assert more[j] == texts[j];
    }
    if BOX_TOP in t && BOX_BOTTOM !in t {
      assert more[|texts|..] == [t];
    }
    if BoxOpenAfter(more) {
      var j :| 0 <= j < |more| && BOX_TOP in more[j] && NoneCloses(more[j..]);
      assert more[|texts|] == t && more[j..][|texts| - j] == t;
      if j < |texts| {
        forall x | x in texts[j..] ensures BOX_BOTTOM !in x {
          assert more[j..] == texts[j..] + [t];
        }
      }
    }
  }

  datatype TextVars = TextVars(prefixPrinted: bool, inToolBox: bool, prompt: string, printed: seq<Output>)

  ghost predicate TextVarsAfter(v: TextVars, texts: seq<string>) {
    && v.prefixPrinted == (texts != []) && v.inToolBox == BoxOpenAfter(texts)
    && v.prompt == OutsideText(texts) && v.printed == Printed(texts)
  }

  method HandleText(v: TextVars, text: string, ghost texts: seq<string>) returns (w: TextVars)
    requires TextVarsAfter(v, texts)
    ensures TextVarsAfter(w, texts + [text])
  {
    BoxStep(texts, text);
    assert (texts + [text])[..|texts|] == texts;
    var inToolBox, prompt, printed := v.inToolBox, v.prompt, v.printed;
    if BOX_TOP in text {
      inToolBox := true;
    }
    if !v.prefixPrinted {
      printed := printed + [AgentPrefix];
    }
    printed := printed + [Print(text)];
    if inToolBox {
      if BOX_BOTTOM in text {
        inToolBox := false;
      }
    } else {
      prompt := prompt + text;
    }
    w := TextVars(true, inToolBox, prompt, printed);
    assert printed == Printed(texts + [text]);
  }

  lemma HasEndStep(events: seq<Event>, i: nat)
    requires i < |events|
    ensures HasEnd(events[..i + 1]) <==> HasEnd(events[..i]) || IsEnd(events[i])
  {
    assert events[..i + 1] == events[..i] + [events[i]];
    if HasEnd(events[..i]) {
      var ev :| ev in events[..i] && IsEnd(ev);
      assert ev in events[..i + 1];
    }
  }

  method HandleRequest(options: seq<Choice>, approvalBefore: bool) returns (needsInput: bool, needsApproval: bool)
    ensures needsInput <==> KindOf(options) == Input
    ensures needsApproval <==> approvalBefore || KindOf(options) == Approval
  {
    needsInput, needsApproval := true, approvalBefore;
    if |options| > 0 {
      var firstOpt := if options[0].Label? then options[0].text else "";
      if firstOpt == "Yes" || firstOpt == "No" {
        needsInput := false;
        needsApproval := true;
      }
    }
  }

  lemma TextsStep(events: seq<Event>, i: nat)
    requires i < |events|
    ensures Texts(events[..i + 1]) == if events[i].Text? && events[i].text.Some?
      then Texts(events[..i]) + [events[i].text.value] else Texts(events[..i])
  {
    assert events[..i + 1][..i] == events[..i];
  }

  lemma LastStep(events: seq<Event>, i: nat, current: string)
    requires i < |events|
    ensures var ev := events[i];
      && LastNode(events[..i + 1], current) ==
           (if ev.Node? && ev.node.Some? then ev.node.value.node else LastNode(events[..i], current))
      && LastRequest(events[..i + 1]) ==
           (if ev.InputRequest? && ev.options.Some? then Some(KindOf(ev.options.value)) else LastRequest(events[..i]))
  {
    assert events[..i + 1][..i] == events[..i];
    hide KindOf;
  }

  /** The variables of a turn. */
  datatype TurnVars = TurnVars(node: string, needsInput: bool, needsApproval: bool, flowDone: bool, text: TextVars)

  ghost predicate TurnVarsAfter(v: TurnVars, events: seq<Event>, current: string) {
    && v.node == LastNode(events, current) && v.flowDone == HasEnd(events)
    && (v.needsInput <==> LastRequest(events) == Some(Input))
    && (LastRequest(events) == Some(Approval) ==> v.needsApproval)
    && (v.needsApproval ==> LastRequest(events).Some?)
    && TextVarsAfter(v.text, Texts(events))
  }

  /** The switch over one event's type. */
  method HandleEvent(ev: Event, v: TurnVars, ghost events: seq<Event>, ghost i: nat, ghost current: string)
    returns (w: TurnVars)
    requires i < |events| && events[i] == ev && TurnVarsAfter(v, events[..i], current)
    ensures TurnVarsAfter(w, events[..i + 1], current)
  {
    HasEndStep(events, i);
    TextsStep(events, i);
    LastStep(events, i, current);
    hide TextVarsAfter, HasEnd, Texts, KindOf, LastNode, LastRequest;
    w := v;
    match ev {
      case Node(payload) =>
        if payload.Some? {
          w := w.(node := payload.value.node);
          if payload.value.node == "END" {
            w := w.(flowDone := true);
          }
        }
      case Text(payload) =>
        if payload.Some? {
          var text := HandleText(v.text, payload.value, Texts(events[..i]));
          w := w.(text := text);
        }
      case InputRequest(payload) =>
        if payload.Some? {
          var needsInput, needsApproval := HandleRequest(payload.value, v.needsApproval);
          w := w.(needsInput := needsInput, needsApproval := needsApproval);
        }
      case Other =>
    }
  }

  /** One turn, up to the decision; the printed text and the prompt are as specified. */
  method RunTurn(events: seq<Event>, current: string)
    returns (decision: Decision, node: string, printed: seq<Output>, prompt: string)
    ensures decision == Decide(events)
    ensures node == LastNode(events, current)
    ensures printed == Printed(Texts(events)) && prompt == OutsideText(Texts(events))
  {
    var v := TurnVars(current, false, false, false, TextVars(false, false, "", []));
    assert TurnVarsAfter(v, [], current) by { EmptyHasNoEnd(current); }
    assert events[..0] == [];
    hide TextVarsAfter, OutsideText, Printed, HasEnd, Texts, LastNode, LastRequest, TurnVarsAfter;
    for i := 0 to |events|
      invariant TurnVarsAfter(v, events[..i], current)
    {
      v := HandleEvent(events[i], v, events, i, current);
    }
    assert events[..|events|] == events;
    decision := if v.flowDone then EndFlow else if v.needsInput then AskInput
                else if v.needsApproval then AskApproval else StopHere;
    node, printed, prompt := v.node, v.text.printed, v.text.prompt;
    VarsMean(v, events, current);
  }

  lemma EmptyHasNoEnd(current: string)
    ensures !HasEnd([]) && Texts([]) == [] && LastNode([], current) == current && LastRequest([]) == None
  {
  }

  lemma VarsMean(v: TurnVars, events: seq<Event>, current: string)
    requires TurnVarsAfter(v, events, current)
    ensures v.text.printed == Printed(Texts(events)) && v.text.prompt == OutsideText(Texts(events))
    ensures v.node == LastNode(events, current)
    ensures Decide(events) ==
      if v.flowDone then EndFlow else if v.needsInput then AskInput else if v.needsApproval then AskApproval else StopHere
  {
    hide OutsideText, Printed, HasEnd, Texts, LastNode, LastRequest;
  }

  // ---------------------------------------------------------------- texts and prompt by position

  function At(texts: seq<string>, positions: seq<nat>): string
    requires InRange(texts, positions)
  {
    if positions == [] then ""
    else At(texts, positions[..|positions| - 1]) + texts[positions[|positions| - 1]]
  }

  /** The text neither opens a box nor comes while one that was opened before is not closed. */
  ghost predicate OutsideBoxes(texts: seq<string>, k: nat)
    requires k < |texts|
  {
    && BOX_TOP !in texts[k]
    && forall j :: 0 <= j < k && BOX_TOP in texts[j] ==> exists m :: j <= m < k && BOX_BOTTOM in texts[m]
  }

  lemma OutsideMeans(texts: seq<string>, k: nat)
    requires k < |texts|
    ensures InToolBox(texts, k) <==> !OutsideBoxes(texts, k)
  {
    var before := texts[..k];
    forall j | 0 <= j < k ensures NoneCloses(before[j..]) <==> forall m :: j <= m < k ==> BOX_BOTTOM !in texts[m] {
      forall m | j <= m < k ensures texts[m] in before[j..] { assert before[j..][m - j] == texts[m]; }
    }
  }

  ghost function Outside(texts: seq<string>): nat -> bool {
    (k: nat) => k < |texts| && OutsideBoxes(texts, k)
  }

  predicate InRange(texts: seq<string>, positions: seq<nat>) {
    forall i :: 0 <= i < |positions| ==> positions[i] < |texts|
  }

  lemma NothingInRange(texts: seq<string>)
    ensures InRange(texts, []) && At(texts, []) == ""
  {
  }

  /** The prompt is made of the texts outside boxes, all of them, in order. */
  lemma {:induction false} PromptByPosition(texts: seq<string>, n: nat) returns (positions: seq<nat>)
    requires n <= |texts|
    ensures Positions(positions, n, Outside(texts)) && InRange(texts, positions)
    ensures OutsideText(texts[..n]) == At(texts, positions)
  {
    positions := [];
    hide Positions, OutsideBoxes, InToolBox, InRange;
    if n == 0 {
      NoPositions(Outside(texts));
      NothingInRange(texts);
    } else {
      var init := PromptByPosition(texts, n - 1);
      OneMorePosition(init, n - 1, Outside(texts));
      PromptStep(texts, n - 1, init);
      positions := if OutsideBoxes(texts, n - 1) then init + [n - 1] else init;
    }
  }

  lemma PromptStep(texts: seq<string>, i: nat, positions: seq<nat>)
    requires i < |texts| && InRange(texts, positions)
    ensures OutsideText(texts[..i + 1]) == OutsideText(texts[..i]) + (if OutsideBoxes(texts, i) then texts[i] else "")
    ensures InRange(texts, positions + [i]) && At(texts, positions + [i]) == At(texts, positions) + texts[i]
  {
    assert texts[..i + 1][..i] == texts[..i];
    assert (positions + [i])[..|positions|] == positions;
    OutsideMeans(texts, i);
    assert InToolBox(texts[..i + 1], i) <==> InToolBox(texts, i);
    hide OutsideBoxes, InToolBox, InRange;
  }

  function ShowsText(events: seq<Event>): nat -> bool {
    (k: nat) => k < |events| && events[k].Text? && events[k].text.Some?
  }

  /** The texts of a turn are those of its text events that parse, all of them, in order. */
  lemma {:induction false} TextsByPosition(events: seq<Event>, n: nat) returns (positions: seq<nat>)
    requires n <= |events|
    ensures Positions(positions, n, ShowsText(events)) && TextsAt(events, positions, Texts(events[..n]))
  {
    positions := [];
    hide Positions, Texts, TextsAt;
    if n == 0 {
      NoPositions(ShowsText(events));
      NoTexts(events);
    } else {
      var i := n - 1;
      var init := TextsByPosition(events, i);
      OneMorePosition(init, i, ShowsText(events));
      TextsStep(events, i);
      if ShowsText(events)(i) {
        TextsAtMore(events, init, Texts(events[..i]), i);
        positions := init + [i];
      } else {
        positions := init;
      }
    }
  }

  ghost predicate TextsAt(events: seq<Event>, positions: seq<nat>, texts: seq<string>) {
    |positions| == |texts| &&
    forall i :: 0 <= i < |positions| ==> positions[i] < |events| && events[positions[i]] == Event.Text(Some(texts[i]))
  }

  lemma TextsAtMore(events: seq<Event>, positions: seq<nat>, texts: seq<string>, i: nat)
    requires TextsAt(events, positions, texts) && i < |events| && events[i].Text? && events[i].text.Some?
    ensures TextsAt(events, positions + [i], texts + [events[i].text.value])
  {
  }

  lemma NoTexts(events: seq<Event>)
    ensures TextsAt(events, [], Texts(events[..0]))
  {
  }

  /** The agent's prefix once, before the first text, then every text. */
  lemma PrintedMeans(texts: seq<string>)
    ensures texts == [] ==> Printed(texts) == []
    ensures texts != [] ==> |Printed(texts)| == |texts| + 1 && Printed(texts)[0] == AgentPrefix
    ensures forall i :: 0 <= i < |texts| ==> Printed(texts)[i + 1] == Print(texts[i])
  {
  }

  // ---------------------------------------------------------------- whole conversations

  datatype End = Finished | Stopped | InputFailed | SelectionFailed | StillRunning

  datatype Reply = Send(message: string) | Quit(end: End)

  /** The local side: pre-filled parameters, automatic approval, and what the user enters on
      each turn (None when reading fails). */
  datatype User = User(
    params: map<string, string>, autoApprove: bool,
    input: nat -> Option<string>, selection: nat -> Option<string>)

  function ReplyTo(u: User, decision: Decision, node: string, turn: nat): Reply {
    match decision
    case EndFlow => Quit(Finished)
    case AskInput =>
      if node in u.params then Send(u.params[node])
      else if u.input(turn).Some? then Send(u.input(turn).value) else Quit(InputFailed)
    case AskApproval =>
      if u.autoApprove then Send("Yes")
      else if u.selection(turn).Some? then Send(u.selection(turn).value) else Quit(SelectionFailed)
    case StopHere => Quit(Stopped)
  }

  /** The current node after the given turns. */
  function NodeAfter(turns: seq<seq<Event>>): string {
    if turns == [] then "" else LastNode(turns[|turns| - 1], NodeAfter(turns[..|turns| - 1]))
  }

  ghost function ReplyOfTurn(u: User, turns: seq<seq<Event>>, k: nat): Reply
    requires k < |turns|
  {
    ReplyTo(u, Decide(turns[k]), NodeAfter(turns[..k + 1]), k)
  }

  /** Event j is the last request that parses. */
  ghost predicate IsLastRequest(events: seq<Event>, j: nat) {
    && j < |events| && events[j].InputRequest? && events[j].options.Some?
    && forall k :: j < k < |events| ==> !(events[k].InputRequest? && events[k].options.Some?)
  }

  /** Event j is the last node that parses. */
  ghost predicate IsLastNode(events: seq<Event>, j: nat) {
    && j < |events| && events[j].Node? && events[j].node.Some?
    && forall k :: j < k < |events| ==> !(events[k].Node? && events[k].node.Some?)
  }

  /** The first of the options is the text Yes or the text No. */
  predicate OffersYesOrNo(options: seq<Choice>) {
    |options| > 0 && (options[0] == Label("Yes") || options[0] == Label("No"))
  }

  /** The turn names END, or its last request decides, or there is none. */
  ghost predicate Asks(events: seq<Event>, approval: bool) {
    && (forall ev :: ev in events && ev.Node? && ev.node.Some? ==> ev.node.value.node != "END")
    && exists j: nat :: IsLastRequest(events, j) && (OffersYesOrNo(events[j].options.value) <==> approval)
  }

  lemma {:induction false} LastRequestMeans(events: seq<Event>) returns (j: nat)
    ensures LastRequest(events).None? ==> forall k :: 0 <= k < |events| ==> !(events[k].InputRequest? && events[k].options.Some?)
    ensures LastRequest(events).Some? ==>
      IsLastRequest(events, j) && (LastRequest(events) == Some(Approval) <==> OffersYesOrNo(events[j].options.value))
  {
    j := 0;
    if events != [] {
      var i := |events| - 1;
      j := LastRequestMeans(events[..i]);
      if events[i].InputRequest? && events[i].options.Some? { j := i; }
    }
  }

  /** The decision of a turn, spelled out: input or approval by the last request alone. */
  lemma DecisionMeans(events: seq<Event>)
    ensures Decide(events) == AskInput <==> Asks(events, false)
    ensures Decide(events) == AskApproval <==> Asks(events, true)
    ensures Decide(events) == EndFlow <==> exists ev :: ev in events && ev.Node? && ev.node.Some? && ev.node.value.node == "END"
  {
    var j := LastRequestMeans(events);
    if Asks(events, true) || Asks(events, false) {
      forall i: nat | IsLastRequest(events, i) ensures i == j { }
    }
    hide LastRequest;
    assert HasEnd(events) <==> exists ev :: ev in events && ev.Node? && ev.node.Some? && ev.node.value.node == "END";
  }

  /** Node j of turn i is the last one named in the first k turns. */
  ghost predicate CurrentNode(turns: seq<seq<Event>>, k: nat, node: string)
    requires k <= |turns|
  {
    || (exists i: nat, j: nat ::
          i < k && IsLastNode(turns[i], j) && turns[i][j].node.value.node == node && NoNodes(turns, i + 1, k))
    || (NoNodes(turns, 0, k) && node == "")
  }

  ghost predicate NoNodes(turns: seq<seq<Event>>, from: nat, to: nat)
    requires to <= |turns|
  {
    forall i, ev :: from <= i < to && ev in turns[i] ==> !(ev.Node? && ev.node.Some?)
  }

  lemma {:induction false} LastNodeMeans(events: seq<Event>, current: string) returns (found: bool, j: nat)
    ensures found ==> IsLastNode(events, j) && events[j].node.value.node == LastNode(events, current)
    ensures !found ==> LastNode(events, current) == current && forall ev :: ev in events ==> !(ev.Node? && ev.node.Some?)
  {
    found, j := false, 0;
    if events != [] {
      var i := |events| - 1;
      found, j := LastNodeMeans(events[..i], current);
      if events[i].Node? && events[i].node.Some? { found, j := true, i; }
      assert events == events[..i] + [events[i]];
    }
  }

  lemma {:induction false} NodeAfterMeans(turns: seq<seq<Event>>, k: nat)
    requires k <= |turns|
    ensures CurrentNode(turns, k, NodeAfter(turns[..k]))
  {
    if k > 0 {
      NodeAfterMeans(turns, k - 1);
      assert turns[..k][..k - 1] == turns[..k - 1];
      var found, j := LastNodeMeans(turns[k - 1], NodeAfter(turns[..k - 1]));
      hide LastNode, IsLastNode;
      if found {
        assert NoNodes(turns, k, k);
      } else {
        StillCurrent(turns, k - 1, NodeAfter(turns[..k - 1]));
      }
    }
  }

  lemma StillCurrent(turns: seq<seq<Event>>, k: nat, node: string)
    requires k < |turns| && CurrentNode(turns, k, node) && forall ev :: ev in turns[k] ==> !(ev.Node? && ev.node.Some?)
    ensures CurrentNode(turns, k + 1, node)
  {
    if NoNodes(turns, 0, k) && node == "" {
      assert NoNodes(turns, 0, k + 1);
    } else {
      var i: nat, j: nat :| i < k && IsLastNode(turns[i], j) && turns[i][j].node.value.node == node && NoNodes(turns, i + 1, k);
      assert NoNodes(turns, i + 1, k + 1);
    }
  }

  /** The message that answers turn k: the pre-filled parameter of the current node wins over
      asking the user, and automatic approval over letting the user choose. */
  ghost predicate Prompted(u: User, turns: seq<seq<Event>>, k: nat, message: string)
    requires k < |turns|
  {
    || (Asks(turns[k], true) && (if u.autoApprove then message == "Yes" else u.selection(k) == Some(message)))
    || (Asks(turns[k], false) && exists node :: CurrentNode(turns, k + 1, node) && FilledIn(u, node, k, message))
  }

  predicate FilledIn(u: User, node: string, k: nat, message: string) {
    if node in u.params then message == u.params[node] else u.input(k) == Some(message)
  }

  /** Why the flow ends after turn k. */
  ghost predicate Ended(u: User, turns: seq<seq<Event>>, k: nat, end: End)
    requires k < |turns|
  {
    match end
    case Finished => exists ev :: ev in turns[k] && ev.Node? && ev.node.Some? && ev.node.value.node == "END"
    case Stopped => !Asks(turns[k], true) && !Asks(turns[k], false)
    case SelectionFailed => Asks(turns[k], true) && !u.autoApprove && u.selection(k).None?
    case InputFailed => Asks(turns[k], false) && u.input(k).None? &&
                        exists node :: CurrentNode(turns, k + 1, node) && node !in u.params
    case StillRunning => false
  }

  /** Every reply is one of those, for its stated reason. */
  lemma ReplyMeans(u: User, turns: seq<seq<Event>>, k: nat)
    requires k < |turns|
    ensures ReplyOfTurn(u, turns, k).Send? ==> Prompted(u, turns, k, ReplyOfTurn(u, turns, k).message)
    ensures ReplyOfTurn(u, turns, k).Quit? ==> Ended(u, turns, k, ReplyOfTurn(u, turns, k).end)
  {
    DecisionMeans(turns[k]);
    NodeAfterMeans(turns, k + 1);
    hide Decide, Asks, CurrentNode, NodeAfter;
    var r, node := ReplyOfTurn(u, turns, k), NodeAfter(turns[..k + 1]);
    if Decide(turns[k]) == AskInput && r.Send? {
      assert CurrentNode(turns, k + 1, node) && FilledIn(u, node, k, r.message);
    }
  }

  lemma ConversationMeans(u: User, turns: seq<seq<Event>>, sent: seq<string>)
    requires Exchanged(u, turns, sent)
    ensures forall k :: 1 <= k < |sent| ==> Prompted(u, turns, k - 1, sent[k])
  {
    forall k | 1 <= k < |sent| ensures Prompted(u, turns, k - 1, sent[k]) { ReplyMeans(u, turns, k - 1); }
  }

  /** The conversation with a server whose k-th stream is turns[k]: the first message is
      empty, every later one is the reply to the turn before, and the run ends with the
      first turn whose reply is to quit; replies and ends have the reasons stated above. */
  method RunFlow(u: User, turns: seq<seq<Event>>) returns (sent: seq<string>, end: End)
    ensures Exchanged(u, turns, sent) && (turns != [] ==> sent != [])
    ensures end == StillRunning ==> |sent| == |turns|
    ensures end == StillRunning && turns != [] ==> ReplyOfTurn(u, turns, |turns| - 1).Send?
    ensures end != StillRunning ==> sent != [] && ReplyOfTurn(u, turns, |sent| - 1) == Quit(end)
    ensures forall k :: 1 <= k < |sent| ==> Prompted(u, turns, k - 1, sent[k])
    ensures end != StillRunning ==> sent != [] && Ended(u, turns, |sent| - 1, end)
  {
    hide ReplyOfTurn, NodeAfter, Prompted, Ended;
    NoTurns();
    assert turns[..0] == [];
    var message, node := "", "";
    sent := [];
    for k := 0 to |turns|
      invariant |sent| == k && node == NodeAfter(turns[..k]) && Exchanged(u, turns, sent)
      invariant if k == 0 then message == "" else ReplyOfTurn(u, turns, k - 1) == Send(message)
    {
      sent := sent + [message];
      var reply;
      reply, node := OneTurn(u, turns, k, node);
      if reply.Quit? {
        ReplyMeans(u, turns, k);
        ConversationMeans(u, turns, sent);
        return sent, reply.end;
      }
      message := reply.message;
    }
    ConversationMeans(u, turns, sent);
    end := StillRunning;
  }

  ghost predicate Exchanged(u: User, turns: seq<seq<Event>>, sent: seq<string>) {
    && |sent| <= |turns| && (sent != [] ==> sent[0] == "")
    && forall k :: 1 <= k < |sent| ==> ReplyOfTurn(u, turns, k - 1) == Send(sent[k])
  }

  lemma NoTurns()
    ensures NodeAfter([]) == ""
  {
  }

  method OneTurn(u: User, turns: seq<seq<Event>>, k: nat, current: string) returns (reply: Reply, node: string)
    requires k < |turns| && current == NodeAfter(turns[..k])
    ensures reply == ReplyOfTurn(u, turns, k) && node == NodeAfter(turns[..k + 1])
    ensures reply.Quit? ==> reply.end != StillRunning
  {
    assert turns[..k + 1][..k] == turns[..k];
    var decision, printed, prompt;
    decision, node, printed, prompt := RunTurn(turns[k], current);
    reply := ReplyTo(u, decision, node, k);
  }

  /** END wins over any request, wherever either stands in the turn. */
  lemma EndWins(before: seq<Event>, end: Event, after: seq<Event>)
    requires IsEnd(end)
    ensures Decide(before + [end] + after) == EndFlow
  {
    assert end in before + [end] + after;
  }

  /** Otherwise only the last parsable request counts. */
  lemma {:induction false} LastRequestDecides(before: seq<Event>, options: seq<Choice>, after: seq<Event>)
    requires forall ev :: ev in after ==> !(ev.InputRequest? && ev.options.Some?)
    ensures LastRequest(before + [InputRequest(Some(options))] + after) == Some(KindOf(options))
  {
    var all := before + [InputRequest(Some(options))] + after;
    if after != [] {
      LastRequestDecides(before, options, after[..|after| - 1]);
      assert all[..|all| - 1] == before + [InputRequest(Some(options))] + after[..|after| - 1];
      assert all[|all| - 1] == after[|after| - 1] && after[|after| - 1] in after;
    }
  }
}
