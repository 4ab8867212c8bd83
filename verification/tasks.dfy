/** A task of the pipeline (`aipreneuros/tasks/task.py` and the stage
    subclasses of both packages): the prompt built from the environment,
    the chat between two roles, and the hook that copies what the chat
    produced from the artifact store into the environment.

    The chat itself (`initiate_chat`, with every reply the roles give) is
    an oracle: it receives the two roles, the prompt and the artifact
    store, and gives back the conversation and the store after it. */
module Tasks {
  import opened Wrappers
  import opened Dicts
  import opened Documents
  import opened Artifacts
  import opened Chat
  import opened Roles
  import opened Environments
  import opened Registry

  /** The environment lists a hook can append to. */
  datatype ListField = Requirements | Design | Backlog

  /** What a stage's `update_environment` does: nothing; append the stored
      document `key` to a list (when `guarded`, only if it is stored,
      otherwise raising KeyError when it is not); or merge the stored code
      into the code base. */
  datatype Hook = NoOp | AppendDoc(key: string, field: ListField, guarded: bool) | MergeCode

  /** The hook of each registered task class. SolutionDesign, DataAnalysis
      and AnalyzeData keep the base class's no-op. */
  function HookOf(c: TaskClass): Hook {
    match c
    case RequirementsGathering => AppendDoc("prd", Requirements, true)
    case DataModelling => AppendDoc("data_model", Design, false)
    case SolutionDesign => NoOp
    case TechnicalDesign => AppendDoc("backlog", Backlog, false)
    case Implementation => MergeCode
    case DataAnalysis => NoOp
    case GatherRequirements => AppendDoc("prd", Requirements, false)
    case AppDataModelling => AppendDoc("data_model", Design, false)
    case DesignSolution => AppendDoc("sdd", Design, false)
    case PlanDevelopment => AppendDoc("backlog", Backlog, false)
    case ImplementSolution => MergeCode
    case AnalyzeData => NoOp
  }

  /** The hooks of the stage classes no registry names: aipreneuros
      Testing, appgen RequirementsGathering and appgen Implementation. */
  const TestingHook := AppendDoc("sdd", Design, false)
  const AppRequirementsGatheringHook := AppendDoc("prd", Requirements, true)
  const AppImplementationHook := MergeCode

  function ListOf(env: Env, field: ListField): seq<Document> {
    match field
    case Requirements => env.requirements
    case Design => env.design
    case Backlog => env.backlog
  }

  function WithList(env: Env, field: ListField, l: seq<Document>): (r: Env)
    ensures ListOf(r, field) == l
  {
    match field
    case Requirements => env.(requirements := l)
    case Design => env.(design := l)
    case Backlog => env.(backlog := l)
  }

  /** `update_environment(environment, rsp)`. The response is not used by
      any hook; every hook reads the artifact store. */
  function UpdateEnvironment(h: Hook, env: Env, store: Store): (r: Result<Env>)
    ensures h.NoOp? ==> r == Ok(env)
    ensures h.AppendDoc? && h.key in store.docs.entries ==>
              r.Ok? && ListOf(r.value, h.field) == ListOf(env, h.field) + [store.docs.entries[h.key]] &&
              (forall g :: g != h.field ==> ListOf(r.value, g) == ListOf(env, g)) &&
              r.value.codebase == env.codebase && r.value.team == env.team &&
              r.value.requestPrompt == env.requestPrompt && r.value.directory == env.directory
    ensures h.AppendDoc? && h.key !in store.docs.entries ==>
              r == if h.guarded then Ok(env) else Err(KeyError(h.key))
    ensures h.MergeCode? ==>
              r.Ok? && r.value.codebase.entries == env.codebase.entries + store.code.entries &&
              env.codebase.order <= r.value.codebase.order &&
              r.value == env.(codebase := r.value.codebase)
  {
    match h
    case NoOp => Ok(env)
    case AppendDoc(key, field, guarded) =>
      if key in store.docs.entries then Ok(WithList(env, field, ListOf(env, field) + [store.docs.entries[key]]))
      else if guarded then Ok(env)
      else Err(KeyError(key))
    case MergeCode =>
      UpdateSpec(env.codebase, store.code);
      Ok(env.(codebase := Update(env.codebase, store.code)))
  }

  /** The appending hooks only ever grow their list, by at most one
      document, keeping the old list as a prefix; no hook removes a key
      from the code base. */
  lemma UpdateEnvironmentGrows(h: Hook, env: Env, store: Store, field: ListField)
    requires UpdateEnvironment(h, env, store).Ok?
    ensures var after := UpdateEnvironment(h, env, store).value;
            ListOf(env, field) <= ListOf(after, field) &&
            |ListOf(after, field)| <= |ListOf(env, field)| + 1 &&
            env.codebase.entries.Keys <= after.codebase.entries.Keys
  {
  }

  /** Which classes append, which merge and which do nothing, and the key
      each reads. */
  lemma StageHooks()
    ensures HookOf(RequirementsGathering).guarded && HookOf(RequirementsGathering).key == "prd"
    ensures !HookOf(GatherRequirements).guarded && HookOf(GatherRequirements).key == "prd"
    ensures HookOf(DataModelling) == HookOf(AppDataModelling) == AppendDoc("data_model", Design, false)
    ensures HookOf(TechnicalDesign) == HookOf(PlanDevelopment) == AppendDoc("backlog", Backlog, false)
    ensures HookOf(DesignSolution) == TestingHook
    ensures HookOf(Implementation) == HookOf(ImplementSolution) == AppImplementationHook
    ensures HookOf(RequirementsGathering) == AppRequirementsGatheringHook
  {
  }

  /** A task: its settings and its class's hook. `pairProgramming` marks
      aipreneuros Implementation, whose `execute` wires the code-writing
      replies instead of switching the human-input mode. */
  datatype Task = Task(
    description: Option<string>,
    assistantRoleName: Option<string>,
    userRoleName: Option<string>,
    maxConsecutiveAutoReply: int,
    taskPrompt: Option<string>,
    placeholders: Dict<string, Field>,
    hook: Hook,
    pairProgramming: bool)

  /** `str.format(**placeholders)`: None when formatting fails. */
  type Format = (string, Dict<string, Field>) -> Option<string>

  /** `initialize_prompt(environment)`: the placeholders become
      `{**placeholders, **environment.dict()}` and stay so; the prompt is
      the task prompt formatted with them, or None (an error is logged and
      nothing is raised) when formatting fails or there is no prompt. */
  function InitializePrompt(t: Task, env: Env, f: Flavour, format: Format): (r: (Option<string>, Task))
    ensures r.1 == t.(placeholders := r.1.placeholders)
    ensures r.1.placeholders.entries == t.placeholders.entries + EnvDict(env, f).entries
    ensures t.placeholders.order <= r.1.placeholders.order
    ensures t.taskPrompt.None? ==> r.0.None?
    ensures t.taskPrompt.Some? ==> r.0 == format(t.taskPrompt.value, r.1.placeholders)
  {
    var merged := Update(t.placeholders, EnvDict(env, f));
    UpdateSpec(t.placeholders, EnvDict(env, f));
    var t' := t.(placeholders := merged);
    if t.taskPrompt.None? then (None, t') else (format(t.taskPrompt.value, merged), t')
  }

  /** The environment's fields override placeholders of the same name,
      other placeholders are kept, and initializing again with the same
      environment changes nothing more. */
  lemma InitializePromptMerge(t: Task, env: Env, f: Flavour, format: Format, k: string)
    ensures var p := InitializePrompt(t, env, f, format).1.placeholders.entries;
            (k in EnvDict(env, f).entries ==> k in p && p[k] == EnvDict(env, f).entries[k]) &&
            (k !in EnvDict(env, f).entries && k in t.placeholders.entries ==> k in p && p[k] == t.placeholders.entries[k])
    ensures var t' := InitializePrompt(t, env, f, format).1;
            InitializePrompt(t', env, f, format).1.placeholders.entries == t'.placeholders.entries
  {
    var t' := InitializePrompt(t, env, f, format).1;
    var e := EnvDict(env, f).entries;
    assert t'.placeholders.entries + e == t'.placeholders.entries;
  }

  /** What `execute` does, in order. */
  datatype Event = HumanInput(mode: string) | RegisterCodeReplies | ChatStarted(prompt: Option<string>) | Updated(rsp: string)

  /** `user_agent.initiate_chat(assistant_agent, message=prompt, ...)`:
      the conversation and the artifact store after it. */
  type ChatRun = (Role, Role, Option<string>, Store) -> (seq<Message>, Store)

  /** The environment, the task, the artifact store, the events and the
      exception that ended `execute`, if any. */
  datatype Executed = Executed(env: Env, task: Task, store: Store, trace: seq<Event>, error: Option<Error>)

  /** The events of the chat: the human-input mode ALWAYS around the chat
      and NEVER after it, or, for pair programming, the code-writing
      replies registered first. */
  function During(pairProgramming: bool, prompt: Option<string>): (d: seq<Event>)
    ensures |d| >= 2 && d[1] == ChatStarted(prompt)
    ensures forall i :: 0 <= i < |d| ==> !d[i].Updated?
  {
    if pairProgramming then [RegisterCodeReplies, ChatStarted(prompt)]
    else [HumanInput("ALWAYS"), ChatStarted(prompt), HumanInput("NEVER")]
  }

  /** `execute(environment)`: look up both roles (a missing one raises
      before anything else), build the prompt, chat — with the user's
      human-input mode ALWAYS during the chat and NEVER after it, or, for
      pair programming, with the code-writing replies registered first —
      then run the hook once with the last message's content. */
  function Execute(t: Task, env: Env, f: Flavour, store: Store, format: Format, chat: ChatRun): (r: Executed)
    ensures GetRole(env, t.userRoleName).Err? ==>
              r == Executed(env, t, store, [], Some(GetRole(env, t.userRoleName).error))
    ensures GetRole(env, t.userRoleName).Ok? && GetRole(env, t.assistantRoleName).Err? ==>
              r == Executed(env, t, store, [], Some(GetRole(env, t.assistantRoleName).error))
    ensures GetRole(env, t.userRoleName).Ok? && GetRole(env, t.assistantRoleName).Ok? ==>
              var (prompt, t') := InitializePrompt(t, env, f, format);
              var (conversation, store') := chat(GetRole(env, t.userRoleName).value, GetRole(env, t.assistantRoleName).value, prompt, store);
              var during := During(t.pairProgramming, prompt);
              r.task == t' && r.store == store' &&
              (|conversation| == 0 ==> r == Executed(env, t', store', during, Some(IndexError))) &&
              (|conversation| > 0 ==>
                 var update := UpdateEnvironment(t.hook, env, store');
                 r.trace == during + [Updated(conversation[|conversation| - 1].content)] &&
                 (update.Ok? ==> r.env == update.value && r.error.None?) &&
                 (update.Err? ==> r.env == env && r.error == Some(update.error)))
  {
    match GetRole(env, t.userRoleName)
    case Err(e) => Executed(env, t, store, [], Some(e))
    case Ok(user) =>
      match GetRole(env, t.assistantRoleName)
      case Err(e) => Executed(env, t, store, [], Some(e))
      case Ok(assistant) =>
        var (prompt, t') := InitializePrompt(t, env, f, format);
        var (conversation, store') := chat(user, assistant, prompt, store);
        var during := During(t.pairProgramming, prompt);
        if |conversation| == 0 then Executed(env, t', store', during, Some(IndexError))
        else
          var rsp := conversation[|conversation| - 1].content;
          match UpdateEnvironment(t.hook, env, store')
          case Err(e) => Executed(env, t', store', during + [Updated(rsp)], Some(e))
          case Ok(env') => Executed(env', t', store', during + [Updated(rsp)], None)
  }

  /** How many hook runs a trace records. */
  function Updates(trace: seq<Event>): (n: nat)
    ensures n <= |trace|
  {
    if |trace| == 0 then 0 else Updates(trace[..|trace| - 1]) + (if trace[|trace| - 1].Updated? then 1 else 0)
  }

  lemma {:induction false} UpdatesNone(trace: seq<Event>)
    requires forall i :: 0 <= i < |trace| ==> !trace[i].Updated?
    ensures Updates(trace) == 0
  {
    if |trace| > 0 {
      UpdatesNone(trace[..|trace| - 1]);
    }
  }

  /** The execution protocol of a trace: the hook runs at most once, as
      the very last step, after the chat started; and without pair
      programming the human-input mode is ALWAYS when the chat starts and
      NEVER afterwards. */
  predicate Protocol(tr: seq<Event>, pairProgramming: bool) {
    Updates(tr) <= 1 &&
    (Updates(tr) == 1 ==> tr[|tr| - 1].Updated? && exists i :: 0 <= i < |tr| - 1 && tr[i].ChatStarted?) &&
    (!pairProgramming && |tr| > 0 ==>
       |tr| >= 3 && tr[0] == HumanInput("ALWAYS") && tr[1].ChatStarted? && tr[2] == HumanInput("NEVER"))
  }

  /** The events of a task run keep to the protocol. */
  lemma ExecuteProtocol(t: Task, env: Env, f: Flavour, store: Store, format: Format, chat: ChatRun)
    ensures Protocol(Execute(t, env, f, store, format, chat).trace, t.pairProgramming)
  {
    var tr := Execute(t, env, f, store, format, chat).trace;
    var empty, prompt, tail := ExecuteTrace(t, env, f, store, format, chat);
    if empty {
      assert Updates(tr) == 0;
    } else {
      ProtocolOfRun(prompt, t.pairProgramming, tail);
    }
  }

  /** A task run's events are nothing (a role is missing) or the chat's
      events followed by at most one hook event. */
  lemma ExecuteTrace(t: Task, env: Env, f: Flavour, store: Store, format: Format, chat: ChatRun)
    returns (empty: bool, prompt: Option<string>, tail: seq<Event>)
    ensures var tr := Execute(t, env, f, store, format, chat).trace;
            (empty ==> tr == []) &&
            (!empty ==> tr == During(t.pairProgramming, prompt) + tail && |tail| <= 1 && (|tail| == 1 ==> tail[0].Updated?))
  {
    var r := Execute(t, env, f, store, format, chat);
    empty, prompt, tail := true, None, [];
    if GetRole(env, t.userRoleName).Ok? && GetRole(env, t.assistantRoleName).Ok? {
      empty := false;
      prompt := InitializePrompt(t, env, f, format).0;
      var conversation := chat(GetRole(env, t.userRoleName).value, GetRole(env, t.assistantRoleName).value, prompt, store).0;
      if |conversation| > 0 {
        tail := [Updated(conversation[|conversation| - 1].content)];
        assert r.trace == During(t.pairProgramming, prompt) + tail;
      } else {
        assert r.trace == During(t.pairProgramming, prompt);
        assert r.trace == During(t.pairProgramming, prompt) + [];
      }
    }
  }

  /** A trace of the chat's events followed by at most one hook event
      keeps to the protocol. */
  lemma ProtocolOfRun(prompt: Option<string>, pairProgramming: bool, tail: seq<Event>)
    requires |tail| <= 1 && (|tail| == 1 ==> tail[0].Updated?)
    ensures Protocol(During(pairProgramming, prompt) + tail, pairProgramming)
  {
    var during := During(pairProgramming, prompt);
    var tr := during + tail;
    UpdatesNone(during);
    assert tr[1] == during[1];
    if |tail| == 1 {
      assert tr[..|tr| - 1] == during;
    } else {
      assert tr == during;
    }
  }

  /** A task whose roles are not both hired fails with the missing role's
      ValueError, and nothing happens: no prompt, no chat, no hook. */
  lemma ExecuteMissingRole(t: Task, env: Env, f: Flavour, store: Store, format: Format, chat: ChatRun)
    requires t.userRoleName !in env.team.entries || t.assistantRoleName !in env.team.entries
    ensures var r := Execute(t, env, f, store, format, chat);
            r.trace == [] && r.env == env && r.task == t && r.store == store && r.error.Some? && r.error.value.ValueError?
  {
  }

  /** `dict()`: five keys, without the placeholders. */
  function TaskDict(t: Task): (d: Dict<string, Field>)
    ensures d.order == ["description", "assistant_role_name", "user_role_name", "max_consecutive_auto_reply", "task_prompt"]
    ensures "placeholders" !in d.entries && |d.order| == 5
    ensures d.entries["description"] == TextOrNull(t.description)
    ensures d.entries["assistant_role_name"] == TextOrNull(t.assistantRoleName)
    ensures d.entries["user_role_name"] == TextOrNull(t.userRoleName)
    ensures d.entries["max_consecutive_auto_reply"] == Number(t.maxConsecutiveAutoReply)
    ensures d.entries["task_prompt"] == TextOrNull(t.taskPrompt)
  {
    var keys := ["description", "assistant_role_name", "user_role_name", "max_consecutive_auto_reply", "task_prompt"];
    assert |keys[0]| == 11 && |keys[1]| == 19 && |keys[2]| == 14 && |keys[3]| == 26 && |keys[4]| == 11;
    assert keys[0][0] != keys[4][0];
    assert |"placeholders"| == 12;
    RawDict(keys, map["description" := TextOrNull(t.description),
                      "assistant_role_name" := TextOrNull(t.assistantRoleName),
                      "user_role_name" := TextOrNull(t.userRoleName),
                      "max_consecutive_auto_reply" := Number(t.maxConsecutiveAutoReply),
                      "task_prompt" := TextOrNull(t.taskPrompt)])
  }

  /** The value a `str`-or-None field was dumped from. */
  function OptionalText(f: Field): (o: Option<string>)
    ensures TextOrNull(o) == f <==> f.Null? || f.Text?
  {
    if f.Text? then Some(f.text) else None
  }

  /** The dictionary reads back: two tasks have the same `dict()` exactly
      when they agree on its five fields, whatever their placeholders,
      hooks or pair-programming flags. */
  lemma TaskDictReadBack(t: Task, u: Task)
    ensures OptionalText(TaskDict(t).entries["description"]) == t.description
    ensures OptionalText(TaskDict(t).entries["task_prompt"]) == t.taskPrompt
    ensures TaskDict(t) == TaskDict(u) <==>
              t.description == u.description && t.assistantRoleName == u.assistantRoleName &&
              t.userRoleName == u.userRoleName && t.maxConsecutiveAutoReply == u.maxConsecutiveAutoReply &&
              t.taskPrompt == u.taskPrompt
  {
    var d, e := TaskDict(t), TaskDict(u);
    if d == e {
      assert OptionalText(d.entries["description"]) == OptionalText(e.entries["description"]);
      assert OptionalText(d.entries["assistant_role_name"]) == OptionalText(e.entries["assistant_role_name"]);
      assert OptionalText(d.entries["user_role_name"]) == OptionalText(e.entries["user_role_name"]);
      assert OptionalText(d.entries["task_prompt"]) == OptionalText(e.entries["task_prompt"]);
    }
  }
}
