/** A role of `aipreneuros/roles/role.py`: its settings, its actions, the
    termination tests of its two agents, and the think-then-act step
    `_react` that picks an action by asking the model for a decision.

    The agents, the chat front end and the logger are left out; what the
    step sends to the model, what it appends to the conversation and which
    action it runs are kept. Rendering `STATE_TEMPLATE` is an oracle that
    receives exactly the values the source formats into it. */
module Roles {
  import opened Wrappers
  import opened PyStr
  import opened Chat
  import opened Decision
  import opened Cost

  /** The name and the description of an action, as shown in the list of
      states. */
  datatype ActionInfo = ActionInfo(name: string, description: string)

  /** The keys of a role's configuration entry; a missing key is None (or,
      for the lists, empty). */
  datatype RoleData = RoleData(
    role: Option<string>, goal: Option<string>, constraints: Option<string>,
    actions: seq<string>, watchList: seq<string>,
    numOfReactLoops: Option<int>, maxConsecutiveAutoReply: Option<int>, humanInputMode: Option<string>)

  /** A constructed role: its setting, the proxy agent's system message and
      limits, its actions in order, and the senders it reacts to. */
  datatype Role = Role(
    role: string, goal: string, constraints: string,
    userSystemMessage: string, humanInputMode: string, maxConsecutiveAutoReply: int,
    numOfReactLoops: int, actions: seq<ActionInfo>, watchList: seq<string>)

  /** `PREFIX_TEMPLATE.format(...)`. */
  function Prefix(role: string, goal: string, constraints: string): string {
    "You are a " + role + ", your goal is to " + goal + ", and the constraints are " + constraints + "."
  }

  function OrDefault<T>(o: Option<T>, default: T): T {
    if o.Some? then o.value else default
  }

  /** The action classes named in a configuration, constructed in order;
      the first name the lookup rejects stops the construction with its
      error. */
  function {:induction false} LookupAll(names: seq<string>, lookup: string -> Result<ActionInfo>): (r: Result<seq<ActionInfo>>)
    ensures r.Ok? <==> forall i :: 0 <= i < |names| ==> lookup(names[i]).Ok?
    ensures r.Ok? ==> |r.value| == |names| && forall i :: 0 <= i < |names| ==> r.value[i] == lookup(names[i]).value
    ensures r.Err? ==> exists i :: 0 <= i < |names| && lookup(names[i]) == Err(r.error) &&
                                   forall j :: 0 <= j < i ==> lookup(names[j]).Ok?
    decreases |names|
  {
    if |names| == 0 then Ok([])
    else
      var first :- lookup(names[0]);
      var rest := LookupAll(names[1..], lookup);
      if rest.Err? then
        assert forall j :: 0 <= j < |names| - 1 ==> names[1..][j] == names[j + 1];
        Err(rest.error)
      else
        assert forall j :: 1 <= j < |names| ==> names[j] == names[1..][j - 1];
        Ok([first] + rest.value)
  }

  /** `Role.from_dict(data)`: the setting and the agent parameters with
      their defaults (no loops count means one loop, ten automatic replies,
      human input NEVER), then the actions in configuration order and the
      watch list. */
  function FromDict(data: RoleData, lookup: string -> Result<ActionInfo>): (r: Result<Role>)
    ensures r.Ok? <==> forall i :: 0 <= i < |data.actions| ==> lookup(data.actions[i]).Ok?
    ensures r.Ok? ==> r.value.role == OrDefault(data.role, "") && r.value.watchList == data.watchList
    ensures r.Ok? ==> r.value.goal == OrDefault(data.goal, "") && r.value.constraints == OrDefault(data.constraints, "")
    ensures r.Ok? ==> r.value.numOfReactLoops == OrDefault(data.numOfReactLoops, 1)
    ensures r.Ok? ==> r.value.maxConsecutiveAutoReply == OrDefault(data.maxConsecutiveAutoReply, 10)
    ensures r.Ok? ==> r.value.humanInputMode == OrDefault(data.humanInputMode, "NEVER")
    ensures r.Ok? ==> |r.value.actions| == |data.actions| &&
                      forall i :: 0 <= i < |data.actions| ==> r.value.actions[i] == lookup(data.actions[i]).value
    ensures r.Ok? ==> r.value.userSystemMessage ==
                      Prefix(r.value.role, r.value.goal, r.value.constraints) + "reply with TERMINATE if everything looks good."
  {
    var role := OrDefault(data.role, "");
    var goal := OrDefault(data.goal, "");
    var constraints := OrDefault(data.constraints, "");
    var actions :- LookupAll(data.actions, lookup);
    Ok(Role(role, goal, constraints,
            Prefix(role, goal, constraints) + "reply with TERMINATE if everything looks good.",
            OrDefault(data.humanInputMode, "NEVER"), OrDefault(data.maxConsecutiveAutoReply, 10),
            OrDefault(data.numOfReactLoops, 1), actions, data.watchList))
  }

  /** An entry that sets every key reads back as that role: its setting,
      its limits and its system message come from the entry. */
  lemma FromDictGiven(data: RoleData, lookup: string -> Result<ActionInfo>)
    requires data.role.Some? && data.goal.Some? && data.constraints.Some?
    requires data.numOfReactLoops.Some? && data.maxConsecutiveAutoReply.Some? && data.humanInputMode.Some?
    requires forall i :: 0 <= i < |data.actions| ==> lookup(data.actions[i]).Ok?
    ensures var r := FromDict(data, lookup);
            r.Ok? &&
            r.value.role == data.role.value && r.value.goal == data.goal.value &&
            r.value.constraints == data.constraints.value &&
            r.value.numOfReactLoops == data.numOfReactLoops.value &&
            r.value.maxConsecutiveAutoReply == data.maxConsecutiveAutoReply.value &&
            r.value.humanInputMode == data.humanInputMode.value &&
            r.value.userSystemMessage ==
              Prefix(data.role.value, data.goal.value, data.constraints.value) +
              "reply with TERMINATE if everything looks good."
  {
  }

  /** An empty entry builds the default role: empty setting, one loop, ten
      automatic replies, human input NEVER, no actions and no watch list. */
  lemma FromDictDefaults(lookup: string -> Result<ActionInfo>)
    ensures FromDict(RoleData(None, None, None, [], [], None, None, None), lookup) ==
              Ok(Role("", "", "", Prefix("", "", "") + "reply with TERMINATE if everything looks good.",
                      "NEVER", 10, 1, [], []))
  {
    assert LookupAll([], lookup) == Ok([]);
  }

  /** The proxy agent's `is_termination_msg`: non-empty content that ends
      in TERMINATE after trailing spaces, or that is only spaces. */
  predicate UserIsTermination(content: string)
    ensures EndsWith(content, "TERMINATE") ==> UserIsTermination(content)
    ensures |content| > 0 && AllSpace(content) ==> UserIsTermination(content)
    ensures content == "" ==> !UserIsTermination(content)
  {
    |content| > 0 && (EndsWith(RStrip(content), "TERMINATE") || Strip(content) == "")
  }

  /** The coding assistant's `is_termination_msg`, written with `rstrip`
      where the proxy's uses `strip`. */
  predicate AssistantIsTermination(content: string)
    ensures EndsWith(content, "TERMINATE") ==> AssistantIsTermination(content)
    ensures |content| > 0 && AllSpace(content) ==> AssistantIsTermination(content)
    ensures content == "" ==> !AssistantIsTermination(content)
  {
    |content| > 0 && (EndsWith(RStrip(content), "TERMINATE") || RStrip(content) == "")
  }

  /** A string strips to nothing exactly when it right-strips to nothing. */
  lemma StripEmpty(s: string)
    ensures Strip(s) == "" <==> RStrip(s) == ""
  {
  }

  /** The two termination tests accept the same messages, and neither
      accepts an empty one. */
  lemma TerminationTestsAgree(content: string)
    ensures UserIsTermination(content) <==> AssistantIsTermination(content)
    ensures content == "" ==> !UserIsTermination(content)
  {
    StripEmpty(content);
  }

  /** `_think`'s first test: the newest message is empty, or is
      "terminate" or "exit" in any letter case. */
  predicate EndsConversation(content: string) {
    var l := Lower(content);
    l == "" || l == "terminate" || l == "exit"
  }

  /** What `STATE_TEMPLATE` is filled with: the whole conversation as it is
      before the request, both agents' names, the number of actions and
      one `idx: name --> description` line per action. */
  datatype StatePrompt = StatePrompt(history: seq<Message>, recipient: string, sender: string,
                                     nStates: int, states: seq<string>)

  type Render = StatePrompt -> string

  /** The list of states offered to the model. */
  function StateLines(actions: seq<ActionInfo>): (r: seq<string>)
    ensures |r| == |actions|
    ensures forall i :: 0 <= i < |r| ==>
              r[i] == IntToString(i) + ": " + actions[i].name + " --> " + actions[i].description
  {
    seq(|actions|, i requires 0 <= i < |actions| =>
      IntToString(i) + ": " + actions[i].name + " --> " + actions[i].description)
  }

  /** Each line reads back: the text before its first `: ` is the
      action's index, and the text after it is the name, the arrow and the
      description. */
  lemma StateLineReadBack(actions: seq<ActionInfo>, i: nat)
    requires i < |actions|
    ensures var line := StateLines(actions)[i];
            var k := Find(line, ": ");
            k == |IntToString(i)| && ParseInt(line[..k]) == Ok(i) &&
            line[k + 2..] == actions[i].name + " --> " + actions[i].description
  {
    var n := IntToString(i);
    var rest := actions[i].name + " --> " + actions[i].description;
    var line := StateLines(actions)[i];
    assert line == n + ": " + rest;
    FirstCharUnique(": ");
    DigitsHoldNoColon(n);
    FindAfterClean(n, ": ", rest);
    assert line[..|n|] == n;
    assert line[|n| + 2..] == rest;
    ParseIntOfIntToString(i);
  }

  /** The decimal text of a natural number holds no `: `. */
  lemma DigitsHoldNoColon(n: string)
    requires forall i :: 0 <= i < |n| ==> IsDigit(n[i])
    ensures !Contains(n, ": ")
  {
    forall j | 0 <= j ensures !OccursAt(n, ": ", j) {
      if j + 2 <= |n| {
        assert n[j..j + 2][0] == n[j];
      }
    }
  }

  /** The outcome of `_think`, with the conversation and the running cost
      it leaves behind; `decision` holds the response and the state. */
  datatype Thought = Thought(decision: Result<(string, int)>, messages: seq<Message>, total: real)

  /** `_think`: an empty list raises IndexError; an ending message gives
      `("", -1)` without a request; otherwise the state prompt is sent
      after the system messages, without the conversation, and the reply is
      parsed. An out-of-range state is only logged. */
  function Think(actions: seq<ActionInfo>, client: Client, system: seq<Message>, messages: seq<Message>,
                 recipient: string, sender: string, render: Render, total: real): (r: Thought)
    ensures |messages| == 0 ==> r == Thought(Err(IndexError), messages, total)
    ensures |messages| > 0 && EndsConversation(messages[|messages| - 1].content) ==>
              r == Thought(Ok(("", -1)), messages, total)
    ensures |messages| > 0 && !EndsConversation(messages[|messages| - 1].content) ==>
              var prompt := render(StatePrompt(messages, recipient, sender, |actions|, StateLines(actions)));
              var sent := client(messages[|messages| - 1].context, system + [UserMessage(prompt)]);
              r.decision == ExtractStateInfo(sent.text) &&
              r.messages == PopContext(messages).value.1 &&
              r.total == total + EstimateCost(sent.usage.model, sent.usage.promptTokens, sent.usage.completionTokens)
  {
    if |messages| == 0 then Thought(Err(IndexError), messages, total)
    else if EndsConversation(messages[|messages| - 1].content) then Thought(Ok(("", -1)), messages, total)
    else Deliberate(actions, client, system, messages, recipient, sender, render, total)
  }

  /** The request `_think` makes when the conversation goes on. */
  function Deliberate(actions: seq<ActionInfo>, client: Client, system: seq<Message>, messages: seq<Message>,
                      recipient: string, sender: string, render: Render, total: real): (r: Thought)
    requires |messages| > 0
    ensures var prompt := render(StatePrompt(messages, recipient, sender, |actions|, StateLines(actions)));
            var sent := client(messages[|messages| - 1].context, system + [UserMessage(prompt)]);
            r.decision == ExtractStateInfo(sent.text) &&
            r.messages == PopContext(messages).value.1 &&
            r.total == total + EstimateCost(sent.usage.model, sent.usage.promptTokens, sent.usage.completionTokens)
  {
    var prompt := render(StatePrompt(messages, recipient, sender, |actions|, StateLines(actions)));
    var f := Framing(system, false, [UserMessage(prompt)]);
    var asked := Ask(client, messages, f, total).value;
    FrameWithoutHistory(f, asked.messages);
    Thought(ExtractStateInfo(asked.reply), asked.messages, asked.total)
  }

  /** Python's `actions[state]`: negative indices count from the end and
      anything outside the list is an IndexError. */
  function PyIndex(len: nat, i: int): (r: Option<nat>)
    ensures r.Some? <==> -(len as int) <= i < len
    ensures r.Some? ==> r.value < len && (r.value == i || r.value == len + i)
  {
    if 0 <= i < len then Some(i)
    else if -(len as int) <= i < 0 then Some(len + i)
    else None
  }

  /** What an action's `_run` gives back, with the conversation and the
      running cost it leaves behind. */
  datatype Outcome = Outcome(result: Result<string>, messages: seq<Message>, total: real)

  /** `self.actions[i]._run(client, messages, system_message)`. */
  type Perform = (nat, seq<Message>, real) -> Outcome

  /** What `_react` returns — None when it does not loop at all — with the
      conversation and the running cost it leaves behind. */
  datatype Reacted = Reacted(reply: Result<Option<(bool, string)>>, messages: seq<Message>, total: real)

  /** `_react`: think; an empty response with state -1 ends with
      TERMINATE; a response with state -1 is the reply; otherwise a
      non-empty response is appended as an assistant message and the chosen
      action runs on the conversation, its result being the reply. Every
      branch of the loop body returns, so only the first iteration runs. */
  function React(loops: int, actions: seq<ActionInfo>, client: Client, system: seq<Message>,
                 messages: seq<Message>, recipient: string, sender: string, render: Render,
                 perform: Perform, total: real): (r: Reacted)
    ensures loops <= 0 ==> r == Reacted(Ok(None), messages, total)
    ensures loops > 0 && Think(actions, client, system, messages, recipient, sender, render, total).decision.Err? ==>
              var t := Think(actions, client, system, messages, recipient, sender, render, total);
              r == Reacted(Err(t.decision.error), t.messages, t.total)
    ensures r.reply.Ok? && r.reply.value.Some? ==> r.reply.value.value.0
  {
    if loops <= 0 then Reacted(Ok(None), messages, total)
    else
      var t := Think(actions, client, system, messages, recipient, sender, render, total);
      match t.decision
      case Err(e) => Reacted(Err(e), t.messages, t.total)
      case Ok((rsp, state)) =>
        if state == -1 then
          Reacted(Ok(Some((true, if rsp == "" then "TERMINATE" else rsp))), t.messages, t.total)
        else
          var shown := if rsp != "" then t.messages + [AssistantMessage(rsp)] else t.messages;
          match PyIndex(|actions|, state)
          case None => Reacted(Err(IndexError), shown, t.total)
          case Some(i) =>
            var o := perform(i, shown, t.total);
            match o.result
            case Err(e) => Reacted(Err(e), o.messages, o.total)
            case Ok(text) => Reacted(Ok(Some((true, text))), o.messages, o.total)
  }

  /** The number of loops only matters as zero or more: every positive
      count reacts like a single loop. */
  lemma ReactLoopsOnce(loops: int, actions: seq<ActionInfo>, client: Client, system: seq<Message>,
                       messages: seq<Message>, recipient: string, sender: string, render: Render,
                       perform: Perform, total: real)
    requires loops > 0
    ensures React(loops, actions, client, system, messages, recipient, sender, render, perform, total) ==
            React(1, actions, client, system, messages, recipient, sender, render, perform, total)
  {
  }

  /** An empty, "terminate" or "exit" message ends the reaction with
      TERMINATE, and no request is made: the conversation and the cost are
      unchanged. */
  lemma ReactEndsOnEndingMessage(loops: int, actions: seq<ActionInfo>, client: Client, system: seq<Message>,
                                 messages: seq<Message>, recipient: string, sender: string, render: Render,
                                 perform: Perform, total: real)
    requires loops > 0 && |messages| > 0 && EndsConversation(messages[|messages| - 1].content)
    ensures React(loops, actions, client, system, messages, recipient, sender, render, perform, total) ==
            Reacted(Ok(Some((true, "TERMINATE"))), messages, total)
  {
  }

  /** When the model picks an action, the action runs on the conversation
      after the request, extended by the model's response when there is
      one; a state outside the list (after Python's negative indexing) is
      an IndexError raised before any action runs. */
  lemma ReactRunsChosenAction(loops: int, actions: seq<ActionInfo>, client: Client, system: seq<Message>,
                              messages: seq<Message>, recipient: string, sender: string, render: Render,
                              perform: Perform, total: real)
    requires loops > 0
    requires Think(actions, client, system, messages, recipient, sender, render, total).decision.Ok?
    ensures var t := Think(actions, client, system, messages, recipient, sender, render, total);
            var (rsp, state) := t.decision.value;
            var shown := if rsp != "" then t.messages + [AssistantMessage(rsp)] else t.messages;
            var r := React(loops, actions, client, system, messages, recipient, sender, render, perform, total);
            state != -1 ==>
              (-|actions| <= state < |actions| ==>
                 var i := if state >= 0 then state else |actions| + state;
                 r.messages == perform(i, shown, t.total).messages &&
                 r.total == perform(i, shown, t.total).total &&
                 (perform(i, shown, t.total).result.Ok? <==> r.reply.Ok?) &&
                 (r.reply.Ok? ==> r.reply.value == Some((true, perform(i, shown, t.total).result.value)))) &&
              (!(-|actions| <= state < |actions|) ==> r == Reacted(Err(IndexError), shown, t.total))
  {
  }

  /** A decision with state -1 is the reply itself, or TERMINATE when the
      response is empty; no action runs and nothing is appended. */
  lemma ReactFinishes(loops: int, actions: seq<ActionInfo>, client: Client, system: seq<Message>,
                      messages: seq<Message>, recipient: string, sender: string, render: Render,
                      perform: Perform, total: real)
    requires loops > 0
    requires Think(actions, client, system, messages, recipient, sender, render, total).decision.Ok?
    requires Think(actions, client, system, messages, recipient, sender, render, total).decision.value.1 == -1
    ensures var t := Think(actions, client, system, messages, recipient, sender, render, total);
            var rsp := t.decision.value.0;
            React(loops, actions, client, system, messages, recipient, sender, render, perform, total) ==
              Reacted(Ok(Some((true, if rsp == "" then "TERMINATE" else rsp))), t.messages, t.total)
  {
  }

  /** End to end: a reply written in the decision format, choosing action
      `state` of the list, runs exactly that action on the conversation
      extended by the response. */
  lemma ReactOnDecision(loops: int, actions: seq<ActionInfo>, client: Client, system: seq<Message>,
                        messages: seq<Message>, recipient: string, sender: string, render: Render,
                        perform: Perform, total: real, state: nat, response: string)
    requires loops > 0 && |messages| > 0 && !EndsConversation(messages[|messages| - 1].content)
    requires state < |actions| && response != "" && !Contains(response, ResponseMarker)
    requires var prompt := render(StatePrompt(messages, recipient, sender, |actions|, StateLines(actions)));
             Ask(client, messages, Framing(system, false, [UserMessage(prompt)]), total).value.reply ==
               DecisionText("", state, response)
    ensures var t := Think(actions, client, system, messages, recipient, sender, render, total);
            var o := perform(state, t.messages + [AssistantMessage(response)], t.total);
            t.decision == Ok((response, state)) &&
            React(loops, actions, client, system, messages, recipient, sender, render, perform, total) ==
              Reacted(if o.result.Ok? then Ok(Some((true, o.result.value))) else Err(o.result.error), o.messages, o.total)
  {
    assert !Contains("", StateMarker) && !Contains("", ResponseMarker);
    ExtractStateInfoRoundTrip("", state, response);
  }
}
