/** The two pipeline drivers, `App` of `aipreneuros/app.py` and
    `TaskChain` of `appgen/task_chain.py`: the GitHub flag, building the
    team and the tasks from the configuration, running the tasks in order
    and the post-processing that writes the artifacts and pushes them.

    Reading the configuration file, creating directories, the chat front
    end and the push itself (an oracle returning the repository link) are
    left out. */
module Pipeline {
  import opened Wrappers
  import opened Dicts
  import opened Documents
  import opened Artifacts
  import opened Chat
  import opened Roles
  import opened Environments
  import opened Registry
  import opened Tasks

  /** `use_github` and the stored token from `github_token`, with the
      check that follows them. */
  function GithubSetting(token: Option<string>): (r: Result<(bool, Option<string>)>)
    ensures r.Ok?
    ensures r.value.0 <==> token.Some?
    ensures r.value.0 ==> r.value.1 == token
  {
    var useGithub := token.Some?;
    var stored := if useGithub then token else None;
    if useGithub && stored.None? then Err(Exception("You must provide your '--github-token' to use github."))
    else Ok((useGithub, stored))
  }

  /** One task entry of the configuration; a missing key is None, and
      `extra` lists, in order, the keys the task constructor does not
      take. */
  datatype TaskEntry = TaskEntry(
    name: Option<string>,
    description: Option<string>,
    assistantRoleName: Option<string>,
    userRoleName: Option<string>,
    maxConsecutiveAutoReply: Option<int>,
    taskPrompt: Option<string>,
    placeholders: Option<Dict<string, Field>>,
    extra: seq<string>)

  /** The parsed configuration: the tasks and the team. */
  datatype Config = Config(tasks: seq<TaskEntry>, team: seq<RoleData>)

  /** `task_class(**entry)` for an entry the constructor accepts, with the
      constructor's defaults: five automatic replies and no placeholders. */
  function BuildTask(c: TaskClass, e: TaskEntry): (t: Task)
    ensures t.hook == HookOf(c) && (t.pairProgramming <==> c == Implementation)
    ensures t.taskPrompt == e.taskPrompt && t.userRoleName == e.userRoleName && t.assistantRoleName == e.assistantRoleName
    ensures e.maxConsecutiveAutoReply.None? ==> t.maxConsecutiveAutoReply == 5
  {
    Task(e.description, e.assistantRoleName, e.userRoleName,
         OrDefault(e.maxConsecutiveAutoReply, 5), e.taskPrompt,
         if e.placeholders.Some? then e.placeholders.value else Empty(),
         HookOf(c), c == Implementation)
  }

  /** Where the task loop of `setup_environment` stopped: the tasks built
      so far, the exception that stopped it, and the configuration's
      entries as the loop leaves them. */
  datatype TaskSetup = TaskSetup(tasks: seq<Task>, error: Option<Error>, entries: seq<TaskEntry>)

  /** Whether an entry names a registered task and holds only keys the
      task constructor takes. */
  predicate Registered(e: TaskEntry, reg: seq<(string, TaskClass)>) {
    e.name.Some? && e.name.value in Names(reg) && e.extra == []
  }

  /** The TypeError of a keyword argument the constructor does not take.
      Every task class passes its keywords on to `Task.__init__`, which
      rejects the key; the qualified name is Python 3.10's wording. */
  function UnexpectedKeyword(key: string): Error {
    TypeError("Task.__init__() got an unexpected keyword argument '" + key + "'")
  }

  /** The task loop of `setup_environment`: each entry's "name" is popped
      (KeyError when it has none), looked up in the registry and the task
      built from the rest of the entry (TypeError for the first key the
      constructor does not take), in order; the first failure stops the
      loop with the tasks built so far. Every entry the loop has passed
      has lost its name. */
  function {:induction false} SetupTasks(entries: seq<TaskEntry>, reg: seq<(string, TaskClass)>): (r: TaskSetup)
    ensures |r.entries| == |entries| && |r.tasks| <= |entries|
    ensures r.error.None? <==> forall i :: 0 <= i < |entries| ==> Registered(entries[i], reg)
    ensures r.error.None? ==> |r.tasks| == |entries|
    ensures forall i :: 0 <= i < |r.tasks| ==>
              Registered(entries[i], reg) &&
              r.tasks[i] == BuildTask(GetTask(reg, entries[i].name.value).value, entries[i]) &&
              r.entries[i] == entries[i].(name := None)
    ensures r.error.Some? ==> |r.tasks| < |entries| && !Registered(entries[|r.tasks|], reg)
    decreases |entries|
  {
    if |entries| == 0 then TaskSetup([], None, [])
    else
      var e := entries[0];
      if e.name.None? then TaskSetup([], Some(KeyError("name")), entries)
      else
        var popped := e.(name := None);
        match GetTask(reg, e.name.value)
        case Err(err) => TaskSetup([], Some(err), [popped] + entries[1..])
        case Ok(c) =>
          if e.extra != [] then TaskSetup([], Some(UnexpectedKeyword(e.extra[0])), [popped] + entries[1..])
          else
          var rest := SetupTasks(entries[1..], reg);
          SetupTasksStep(entries, reg, c, rest);
          SetupTasksStepBuilt(entries, reg, c, rest);
          TaskSetup([BuildTask(c, e)] + rest.tasks, rest.error, [popped] + rest.entries)
  }

  /** With a registered first entry, every entry is registered iff every
      later one is. */
  lemma AllRegisteredCons(entries: seq<TaskEntry>, reg: seq<(string, TaskClass)>)
    requires |entries| > 0 && Registered(entries[0], reg)
    ensures (forall i :: 0 <= i < |entries| ==> Registered(entries[i], reg)) <==>
            (forall i :: 0 <= i < |entries| - 1 ==> Registered(entries[1..][i], reg))
  {
    var tail := entries[1..];
    if forall i :: 0 <= i < |tail| ==> Registered(tail[i], reg) {
      forall i | 0 <= i < |entries| ensures Registered(entries[i], reg) {
        if i > 0 { assert entries[i] == tail[i - 1]; }
      }
    }
  }

  /** One step of the task loop: building a registered first entry in
      front of what the loop makes of the rest keeps the loop's contract. */
  lemma SetupTasksStep(entries: seq<TaskEntry>, reg: seq<(string, TaskClass)>, c: TaskClass, rest: TaskSetup)
    requires |entries| > 0 && Registered(entries[0], reg)
    requires |rest.entries| == |entries| - 1 && |rest.tasks| <= |entries| - 1
    requires rest.error.None? <==> forall i :: 0 <= i < |entries| - 1 ==> Registered(entries[1..][i], reg)
    requires rest.error.None? ==> |rest.tasks| == |entries| - 1
    requires rest.error.Some? ==> |rest.tasks| < |entries| - 1 && !Registered(entries[1..][|rest.tasks|], reg)
    ensures var r := TaskSetup([BuildTask(c, entries[0])] + rest.tasks, rest.error, [entries[0].(name := None)] + rest.entries);
            |r.entries| == |entries| && |r.tasks| <= |entries| &&
            (r.error.None? <==> forall i :: 0 <= i < |entries| ==> Registered(entries[i], reg)) &&
            (r.error.None? ==> |r.tasks| == |entries|) &&
            (r.error.Some? ==> |r.tasks| < |entries| && !Registered(entries[|r.tasks|], reg))
  {
    AllRegisteredCons(entries, reg);
    if rest.error.Some? {
      assert entries[|rest.tasks| + 1] == entries[1..][|rest.tasks|];
    }
  }

  /** The tasks of that step: the first is built from the first entry with
      its registered class, the others are the rest's. */
  lemma SetupTasksStepBuilt(entries: seq<TaskEntry>, reg: seq<(string, TaskClass)>, c: TaskClass, rest: TaskSetup)
    requires |entries| > 0 && Registered(entries[0], reg) && GetTask(reg, entries[0].name.value) == Ok(c)
    requires |rest.entries| == |entries| - 1 && |rest.tasks| <= |entries| - 1
    requires forall i :: 0 <= i < |rest.tasks| ==>
               Registered(entries[1..][i], reg) &&
               rest.tasks[i] == BuildTask(GetTask(reg, entries[1..][i].name.value).value, entries[1..][i]) &&
               rest.entries[i] == entries[1..][i].(name := None)
    ensures var r := TaskSetup([BuildTask(c, entries[0])] + rest.tasks, rest.error, [entries[0].(name := None)] + rest.entries);
            forall i :: 0 <= i < |r.tasks| ==>
              Registered(entries[i], reg) &&
              r.tasks[i] == BuildTask(GetTask(reg, entries[i].name.value).value, entries[i]) &&
              r.entries[i] == entries[i].(name := None)
  {
    var r := TaskSetup([BuildTask(c, entries[0])] + rest.tasks, rest.error, [entries[0].(name := None)] + rest.entries);
    var tail := entries[1..];
    forall i | 0 <= i < |r.tasks|
      ensures Registered(entries[i], reg) &&
              r.tasks[i] == BuildTask(GetTask(reg, entries[i].name.value).value, entries[i]) &&
              r.entries[i] == entries[i].(name := None)
    {
      if i > 0 {
        assert entries[i] == tail[i - 1];
        assert r.tasks[i] == rest.tasks[i - 1] && r.entries[i] == rest.entries[i - 1];
      }
    }
  }

  /** The entry the loop stopped at: a missing name is a KeyError and
      leaves the entry as it was; an unregistered name is `get_task`'s
      error, and a key the constructor does not take its TypeError, both
      after the name was popped. Entries after it are untouched. */
  lemma {:induction false} SetupTasksStops(entries: seq<TaskEntry>, reg: seq<(string, TaskClass)>)
    requires SetupTasks(entries, reg).error.Some?
    ensures var r := SetupTasks(entries, reg);
            var k := |r.tasks|;
            k < |entries| && StoppedAt(entries, r, k, reg)
    decreases |entries|
  {
    var e := entries[0];
    if e.name.Some? && GetTask(reg, e.name.value).Ok? && e.extra == [] {
      var rest := SetupTasks(entries[1..], reg);
      SetupTasksStops(entries[1..], reg);
      var r := SetupTasks(entries, reg);
      var built := BuildTask(GetTask(reg, e.name.value).value, e);
      assert r == TaskSetup([built] + rest.tasks, rest.error, [e.(name := None)] + rest.entries);
      StoppedLater(entries, built, e.(name := None), rest, reg);
    }
  }

  /** The loop stopped at entry `k` and left it as the source does. */
  predicate StoppedAt(entries: seq<TaskEntry>, r: TaskSetup, k: nat, reg: seq<(string, TaskClass)>)
    requires k < |entries| && |r.entries| == |entries| && r.error.Some?
  {
    (entries[k].name.None? ==> r.error.value == KeyError("name") && r.entries[k..] == entries[k..]) &&
    (entries[k].name.Some? ==> r.entries[k] == entries[k].(name := None) && r.entries[k + 1..] == entries[k + 1..]) &&
    (entries[k].name.Some? && GetTask(reg, entries[k].name.value).Err? ==>
       r.error.value == GetTask(reg, entries[k].name.value).error) &&
    (entries[k].name.Some? && GetTask(reg, entries[k].name.value).Ok? ==>
       entries[k].extra != [] && r.error.value == UnexpectedKeyword(entries[k].extra[0]))
  }

  lemma StoppedLater(entries: seq<TaskEntry>, built: Task, popped: TaskEntry, rest: TaskSetup, reg: seq<(string, TaskClass)>)
    requires |entries| > 0 && |rest.entries| == |entries| - 1 && rest.error.Some?
    requires |rest.tasks| < |entries| - 1 && StoppedAt(entries[1..], rest, |rest.tasks|, reg)
    ensures StoppedAt(entries, TaskSetup([built] + rest.tasks, rest.error, [popped] + rest.entries), |rest.tasks| + 1, reg)
  {
    var k := |rest.tasks| + 1;
    var r := TaskSetup([built] + rest.tasks, rest.error, [popped] + rest.entries);
    assert entries[k] == entries[1..][k - 1];
    assert r.entries[k] == rest.entries[k - 1];
    assert entries[k..] == entries[1..][k - 1..];
    assert r.entries[k..] == rest.entries[k - 1..];
    assert entries[k + 1..] == entries[1..][k..];
    assert r.entries[k + 1..] == rest.entries[k..];
  }

  /** `setup_environment` cannot run twice on the same configuration: the
      first run popped every task's name, so the second raises KeyError
      before building anything. */
  lemma SetupTasksTwice(entries: seq<TaskEntry>, reg: seq<(string, TaskClass)>)
    requires |entries| > 0 && SetupTasks(entries, reg).error.None?
    ensures SetupTasks(SetupTasks(entries, reg).entries, reg) == TaskSetup([], Some(KeyError("name")), SetupTasks(entries, reg).entries)
  {
    var again := SetupTasks(entries, reg).entries;
    assert again[0].name.None?;
  }

  /** `_initialize_team`: each configured role, built with `from_dict`,
      stored under its configured name; a later role of the same name
      replaces the earlier one. */
  function {:induction false} InitializeTeam(roles: seq<RoleData>, lookup: string -> Result<ActionInfo>): (r: Result<Dict<Option<string>, Role>>)
    ensures r.Ok? <==> forall i :: 0 <= i < |roles| ==> FromDict(roles[i], lookup).Ok?
    decreases |roles|
  {
    if |roles| == 0 then Ok(Empty())
    else
      var last := roles[|roles| - 1];
      var prefix := roles[..|roles| - 1];
      var team :- InitializeTeam(prefix, lookup);
      var role :- FromDict(last, lookup);
      assert forall i :: 0 <= i < |roles| - 1 ==> roles[i] == prefix[i];
      Ok(Set(team, last.role, role))
  }

  /** A built team is the team of all but the last role with the last
      one stored under its name. */
  lemma TeamUnfold(roles: seq<RoleData>, lookup: string -> Result<ActionInfo>)
    requires |roles| > 0 && InitializeTeam(roles, lookup).Ok?
    ensures InitializeTeam(roles[..|roles| - 1], lookup).Ok?
    ensures FromDict(roles[|roles| - 1], lookup).Ok?
    ensures InitializeTeam(roles, lookup).value ==
            Set(InitializeTeam(roles[..|roles| - 1], lookup).value, roles[|roles| - 1].role,
                FromDict(roles[|roles| - 1], lookup).value)
  {
  }

  /** The team holds exactly the configured names. */
  lemma {:induction false} TeamNames(roles: seq<RoleData>, lookup: string -> Result<ActionInfo>, k: Option<string>)
    requires InitializeTeam(roles, lookup).Ok?
    ensures k in InitializeTeam(roles, lookup).value.entries <==> exists i :: 0 <= i < |roles| && roles[i].role == k
    decreases |roles|
  {
    if |roles| > 0 {
      var prefix := roles[..|roles| - 1];
      TeamUnfold(roles, lookup);
      TeamNames(prefix, lookup, k);
      NamesOfPrefix(roles, prefix, k);
    }
  }

  /** A name is configured iff the last role or an earlier one has it. */
  lemma NamesOfPrefix(roles: seq<RoleData>, prefix: seq<RoleData>, k: Option<string>)
    requires |roles| > 0 && prefix == roles[..|roles| - 1]
    ensures (exists i :: 0 <= i < |roles| && roles[i].role == k) <==>
            roles[|roles| - 1].role == k || exists i :: 0 <= i < |prefix| && prefix[i].role == k
  {
    if i :| 0 <= i < |roles| && roles[i].role == k {
      if i < |roles| - 1 {
        assert prefix[i].role == k;
      }
    }
    if i :| 0 <= i < |roles| - 1 && prefix[i].role == k {
      assert roles[i].role == k;
    }
  }

  /** Last write wins: a name holds the role built from the last entry
      that configures it. */
  lemma {:induction false} TeamLastWins(roles: seq<RoleData>, lookup: string -> Result<ActionInfo>, i: nat)
    requires i < |roles| && InitializeTeam(roles, lookup).Ok?
    requires forall j :: i < j < |roles| ==> roles[j].role != roles[i].role
    ensures roles[i].role in InitializeTeam(roles, lookup).value.entries
    ensures InitializeTeam(roles, lookup).value.entries[roles[i].role] == FromDict(roles[i], lookup).value
    decreases |roles|
  {
    var prefix := roles[..|roles| - 1];
    TeamUnfold(roles, lookup);
    if i < |roles| - 1 {
      assert prefix[i] == roles[i];
      forall j | i < j < |prefix| ensures prefix[j].role != prefix[i].role {
        assert prefix[j] == roles[j];
      }
      TeamLastWins(prefix, lookup, i);
    }
  }

  /** What `setup_environment` leaves: the environment (None when the team
      could not be built), the tasks, the exception that stopped it and
      the configuration as it was left. */
  datatype Setup = Setup(env: Option<Env>, tasks: seq<Task>, error: Option<Error>, config: Config)

  /** `setup_environment`: the team, the environment in the project
      directory `root/name`, then the tasks. aipreneuros takes the code base
      and the document lists as arguments; appgen always starts them empty.
      A role that cannot be built stops the setup before the environment
      exists and before any task entry is touched; a bad task entry stops
      it after the environment exists. */
  function SetupEnvironment(f: Flavour, config: Config, idea: Option<string>, root: string, name: string,
                            codebase: Dict<Option<string>, string>, requirements: seq<Document>,
                            design: seq<Document>, backlog: seq<Document>,
                            lookup: string -> Result<ActionInfo>, reg: seq<(string, TaskClass)>): (r: Setup)
    ensures InitializeTeam(config.team, lookup).Err? ==>
              r == Setup(None, [], Some(InitializeTeam(config.team, lookup).error), config)
    ensures InitializeTeam(config.team, lookup).Ok? ==>
              r.env.Some? &&
              r.env.value.directory == root + "/" + name && r.env.value.requestPrompt == idea &&
              r.env.value.team == InitializeTeam(config.team, lookup).value &&
              (f.Appgen? ==> r.env.value.codebase.entries == map[] && r.env.value.requirements == [] &&
                             r.env.value.design == [] && r.env.value.backlog == []) &&
              (f.Aipreneuros? ==> r.env.value.codebase == codebase && r.env.value.requirements == requirements &&
                                  r.env.value.design == design && r.env.value.backlog == backlog) &&
              r.tasks == SetupTasks(config.tasks, reg).tasks && r.error == SetupTasks(config.tasks, reg).error
    ensures r.config.team == config.team && |r.config.tasks| == |config.tasks|
  {
    match InitializeTeam(config.team, lookup)
    case Err(e) => Setup(None, [], Some(e), config)
    case Ok(team) =>
      var env := if f.Aipreneuros? then Env(idea, codebase, requirements, design, backlog, team, root + "/" + name)
                 else Env(idea, Empty(), [], [], [], team, root + "/" + name);
      var ts := SetupTasks(config.tasks, reg);
      Setup(Some(env), ts.tasks, ts.error, config.(tasks := ts.entries))
  }

  /** The state after running tasks: the environment, the artifact store,
      the tasks as their runs left them, every event in order, how many
      tasks were started and the exception that stopped the run. */
  datatype Run = Run(env: Env, store: Store, tasks: seq<Task>, trace: seq<Event>, started: nat, error: Option<Error>)

  /** `execute()`: each task in list order, on the environment the
      previous one left; an exception stops the run. */
  function {:induction false} RunTasks(tasks: seq<Task>, env: Env, f: Flavour, store: Store, format: Format, chat: ChatRun): (r: Run)
    ensures r.started <= |tasks| && |r.tasks| == r.started
    ensures r.error.None? ==> r.started == |tasks|
    ensures r.error.Some? ==> r.started > 0
    decreases |tasks|
  {
    if |tasks| == 0 then Run(env, store, [], [], 0, None)
    else
      var prev := RunTasks(tasks[..|tasks| - 1], env, f, store, format, chat);
      if prev.error.Some? then prev
      else
        var x := Execute(tasks[|tasks| - 1], prev.env, f, prev.store, format, chat);
        Run(x.env, x.store, prev.tasks + [x.task], prev.trace + x.trace, prev.started + 1, x.error)
  }

  lemma {:induction false} UpdatesAppend(a: seq<Event>, b: seq<Event>)
    ensures Updates(a + b) == Updates(a) + Updates(b)
    decreases |b|
  {
    if |b| > 0 {
      assert (a + b)[..|a + b| - 1] == a + b[..|b| - 1];
      UpdatesAppend(a, b[..|b| - 1]);
    } else {
      assert a + b == a;
    }
  }

  /** A task that finishes without an exception has run its hook exactly
      once. */
  lemma ExecuteSucceeded(t: Task, env: Env, f: Flavour, store: Store, format: Format, chat: ChatRun)
    requires Execute(t, env, f, store, format, chat).error.None?
    ensures Updates(Execute(t, env, f, store, format, chat).trace) == 1
  {
    var r := Execute(t, env, f, store, format, chat);
    ExecuteProtocol(t, env, f, store, format, chat);
    var tr := r.trace;
    assert |tr| > 0 && tr[|tr| - 1].Updated?;
    UpdatesAppend(tr[..|tr| - 1], [tr[|tr| - 1]]);
    assert tr[..|tr| - 1] + [tr[|tr| - 1]] == tr;
  }

  /** A run without exception runs every task's hook exactly once. */
  lemma {:induction false} RunTasksUpdatesEach(tasks: seq<Task>, env: Env, f: Flavour, store: Store, format: Format, chat: ChatRun)
    requires RunTasks(tasks, env, f, store, format, chat).error.None?
    ensures Updates(RunTasks(tasks, env, f, store, format, chat).trace) == |tasks|
    decreases |tasks|
  {
    if |tasks| > 0 {
      var prev := RunTasks(tasks[..|tasks| - 1], env, f, store, format, chat);
      RunTasksUpdatesEach(tasks[..|tasks| - 1], env, f, store, format, chat);
      var x := Execute(tasks[|tasks| - 1], prev.env, f, prev.store, format, chat);
      ExecuteSucceeded(tasks[|tasks| - 1], prev.env, f, prev.store, format, chat);
      UpdatesAppend(prev.trace, x.trace);
    }
  }

  /** Running a list in two parts is running it whole: each task runs once,
      after every task before it. */
  lemma {:induction false} RunTasksSplit(tasks: seq<Task>, more: Task, env: Env, f: Flavour, store: Store, format: Format, chat: ChatRun)
    requires RunTasks(tasks, env, f, store, format, chat).error.None?
    ensures var before := RunTasks(tasks, env, f, store, format, chat);
            var x := Execute(more, before.env, f, before.store, format, chat);
            RunTasks(tasks + [more], env, f, store, format, chat) ==
              Run(x.env, x.store, before.tasks + [x.task], before.trace + x.trace, |tasks| + 1, x.error)
  {
    assert (tasks + [more])[..|tasks|] == tasks;
  }

  /** The link to the pushed repository. */
  type Push = (string, string, string) -> string

  /** aipreneuros `post_processing`: write the artifacts, then push when
      GitHub is used; an exception while writing stops it before the
      push. */
  function PostProcessing(store: Store, env: Env, useGithub: bool, token: string, name: string, push: Push): (r: (seq<FileWrite>, Result<Option<string>>))
    ensures r.0 == SaveArtifacts(store, env.directory).writes
    ensures r.1.Err? <==> SaveArtifacts(store, env.directory).error.Some?
    ensures r.1.Ok? ==> (r.1.value.Some? <==> useGithub)
    ensures r.1.Ok? && useGithub ==> r.1.value == Some(push(env.directory, token, name))
  {
    var plan := SaveArtifacts(store, env.directory);
    if plan.error.Some? then (plan.writes, Err(plan.error.value))
    else (plan.writes, Ok(if useGithub then Some(push(env.directory, token, name)) else None))
  }

  /** appgen `post_processing`: `requirements.txt` first, then the
      documents and the code, then the push when GitHub is used. The
      source only shows the link in the chat front end and returns
      nothing; here it is returned. */
  function PostProcessingAppgen(store: Store, env: Env, useGithub: bool, token: string, name: string, push: Push): (r: (seq<FileWrite>, Result<Option<string>>))
    ensures SetupProjectEnv(store, env.directory).Err? ==> r == ([], Err(SetupProjectEnv(store, env.directory).error))
    ensures SetupProjectEnv(store, env.directory).Ok? ==>
              r.0 == SetupProjectEnv(store, env.directory).value + SaveArtifactsAppgen(store, env.directory) &&
              r.1 == Ok(if useGithub then Some(push(env.directory, token, name)) else None)
  {
    match SetupProjectEnv(store, env.directory)
    case Err(e) => ([], Err(e))
    case Ok(requirements) =>
      (requirements + SaveArtifactsAppgen(store, env.directory), Ok(if useGithub then Some(push(env.directory, token, name)) else None))
  }

  /** With a stored data backlog, appgen writes `requirements.txt` before
      any document. */
  lemma RequirementsFirst(store: Store, env: Env, useGithub: bool, token: string, name: string, push: Push)
    requires "backlog" in store.docs.entries && store.docs.entries["backlog"].DataBacklogDoc?
    ensures var w := PostProcessingAppgen(store, env, useGithub, token, name, push).0;
            |w| > 0 && w[0] == RequirementsWrite(env.directory, store.docs.entries["backlog"].data.requiredPythonPackages) &&
            w[1..] == SaveArtifactsAppgen(store, env.directory)
  {
  }
}
