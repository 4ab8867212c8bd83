/** Chat messages and one completion request, with the LLM client as an
    oracle.

    Every request in the modelled code first pops the optional `context`
    entry of the newest message (`messages[-1].pop("context", None)`),
    then calls `client.create`, then adds the completion's cost to the
    running total (`estimate_cost_of_completion`). */
module Chat {
  import opened Wrappers
  import opened Cost

  /** A chat message: role, content and the optional `context` entry. */
  datatype Message = Message(role: string, content: string, context: Option<string>)

  /** A completion: the usage report and the text
      `extract_text_or_function_call(response)[0]`. */
  datatype Completion = Completion(usage: Usage, text: string)

  /** `client.create(context=..., messages=...)`. */
  type Client = (Option<string>, seq<Message>) -> Completion

  function UserMessage(content: string): Message {
    Message("user", content, None)
  }

  function AssistantMessage(content: string): Message {
    Message("assistant", content, None)
  }

  /** `messages[-1].pop("context", None)`: IndexError on an empty list,
      otherwise the newest message loses its context and the rest are
      untouched. */
  function PopContext(messages: seq<Message>): (r: Result<(Option<string>, seq<Message>)>)
    ensures r.Err? <==> |messages| == 0
    ensures r.Err? ==> r.error == IndexError
    ensures r.Ok? ==> r.value.0 == messages[|messages| - 1].context
    ensures r.Ok? ==> |r.value.1| == |messages| && r.value.1[..|messages| - 1] == messages[..|messages| - 1]
    ensures r.Ok? ==> r.value.1[|messages| - 1] == messages[|messages| - 1].(context := None)
  {
    if |messages| == 0 then Err(IndexError)
    else
      var last := messages[|messages| - 1];
      Ok((last.context, messages[..|messages| - 1] + [last.(context := None)]))
  }

  /** Popping twice finds nothing the second time and changes nothing. */
  lemma PopContextTwice(messages: seq<Message>)
    requires |messages| > 0
    ensures PopContext(PopContext(messages).value.1).value.0.None?
    ensures PopContext(PopContext(messages).value.1).value.1 == PopContext(messages).value.1
  {
    var m := PopContext(messages).value.1;
    assert m[..|m| - 1] + [m[|m| - 1]] == m;
  }

  /** What one request sends: the system messages, then the conversation
      after the pop when `withHistory`, then the prompt messages. */
  datatype Framing = Framing(system: seq<Message>, withHistory: bool, prompt: seq<Message>)

  function Frame(f: Framing, popped: seq<Message>): seq<Message> {
    f.system + (if f.withHistory then popped else []) + f.prompt
  }

  /** Without the history, the conversation is not sent at all. */
  lemma FrameWithoutHistory(f: Framing, popped: seq<Message>)
    requires !f.withHistory
    ensures Frame(f, popped) == f.system + f.prompt
  {
  }

  /** The result of one request: the messages after the pop, the reply
      text and the new running cost. */
  datatype Asked = Asked(messages: seq<Message>, reply: string, completion: Completion, total: real)

  /** One request: pop the context, send the framed messages, add the cost
      to `total`. */
  function Ask(client: Client, messages: seq<Message>, f: Framing, total: real): (r: Result<Asked>)
    ensures r.Err? <==> |messages| == 0
    ensures r.Err? ==> r.error == IndexError
    ensures r.Ok? ==> r.value.messages == PopContext(messages).value.1
    ensures r.Ok? ==> r.value.completion == client(messages[|messages| - 1].context, Frame(f, r.value.messages))
    ensures r.Ok? ==> r.value.reply == r.value.completion.text
    ensures r.Ok? ==> r.value.total == total + EstimateCost(r.value.completion.usage.model,
                                                             r.value.completion.usage.promptTokens,
                                                             r.value.completion.usage.completionTokens)
    ensures r.Ok? ==> r.value.total >= total
  {
    var (context, popped) :- PopContext(messages);
    var completion := client(context, Frame(f, popped));
    var (total', _) := AccrueCost(total, completion.usage);
    Ok(Asked(popped, completion.text, completion, total'))
  }
}
