/** The name registries: `get_task` of `aipreneuros/tasks/__init__.py` and
    `appgen/tasks/__init__.py`, and `get_action` of
    `appgen/actions/__init__.py`. A registry is an insertion-ordered list of
    names and the classes they stand for. */
module Registry {
  import opened Wrappers
  import opened PyStr

  /** The task classes. The aipreneuros and appgen classes of the same name
      are different classes with the same update hook. */
  datatype TaskClass =
    | RequirementsGathering | DataModelling | SolutionDesign | TechnicalDesign | Implementation | DataAnalysis
    | GatherRequirements | AppDataModelling | DesignSolution | PlanDevelopment | ImplementSolution | AnalyzeData

  /** The action classes appgen registers. */
  datatype ActionClass =
    | WriteDocument | WriteRequirementsDocument | WriteDataModelDocument | WriteTechnicalDesignDocument
    | WriteDevelopmentBacklogDocument | WriteCode | AnalyzeDataAction

  function Names<T>(reg: seq<(string, T)>): (r: seq<string>)
    ensures |r| == |reg| && forall i :: 0 <= i < |reg| ==> r[i] == reg[i].0
  {
    seq(|reg|, i requires 0 <= i < |reg| => reg[i].0)
  }

  /** `registry[name]` for a name that is a key: the class stored under its
      first occurrence. */
  function {:induction false} Lookup<T>(reg: seq<(string, T)>, name: string): (r: Option<T>)
    ensures r.Some? <==> name in Names(reg)
    decreases |reg|
  {
    if |reg| == 0 then None
    else
      assert Names(reg) == [reg[0].0] + Names(reg[1..]);
      if reg[0].0 == name then Some(reg[0].1)
      else Lookup(reg[1..], name)
  }

  /** Python's `repr` of a list of strings: `['a', 'b']`. */
  function ListRepr(names: seq<string>): string {
    "[" + Join(seq(|names|, i requires 0 <= i < |names| => "'" + names[i] + "'"), ", ") + "]"
  }

  /** `get_task(name)`: the registered class, or a ValueError that names
      the task and lists every registered name. */
  function GetTask(reg: seq<(string, TaskClass)>, name: string): (r: Result<TaskClass>)
    ensures r.Ok? <==> name in Names(reg)
    ensures r.Ok? ==> Lookup(reg, name) == Some(r.value)
    ensures r.Err? ==> r.error == ValueError("Task '" + name + "' not found. Available tasks: " + ListRepr(Names(reg)))
  {
    match Lookup(reg, name)
    case Some(c) => Ok(c)
    case None => Err(ValueError("Task '" + name + "' not found. Available tasks: " + ListRepr(Names(reg))))
  }

  /** appgen `get_action(name)`: the registered class, or a ValueError that
      names the action and joins every registered name with ", ". */
  function GetAction(reg: seq<(string, ActionClass)>, name: string): (r: Result<ActionClass>)
    ensures r.Ok? <==> name in Names(reg)
    ensures r.Ok? ==> Lookup(reg, name) == Some(r.value)
    ensures r.Err? ==> r.error == ValueError("Action " + name + " not found. Available actions: " + Join(Names(reg), ", "))
  {
    match Lookup(reg, name)
    case Some(c) => Ok(c)
    case None => Err(ValueError("Action " + name + " not found. Available actions: " + Join(Names(reg), ", ")))
  }

  const AipreneurosTasks: seq<(string, TaskClass)> := [
    ("RequirementsGathering", RequirementsGathering),
    ("DataModelling", DataModelling),
    ("SolutionDesign", SolutionDesign),
    ("TechnicalDesign", TechnicalDesign),
    ("Implementation", Implementation),
    ("DataAnalysis", DataAnalysis)]

  const AppgenTasks: seq<(string, TaskClass)> := [
    ("GatherRequirements", GatherRequirements),
    ("DataModelling", AppDataModelling),
    ("DesignSolution", DesignSolution),
    ("PlanDevelopment", PlanDevelopment),
    ("ImplementSolution", ImplementSolution),
    ("AnalyzeData", AnalyzeData)]

  const AppgenActions: seq<(string, ActionClass)> := [
    ("WriteDocument", WriteDocument),
    ("WriteRequirementsDocument", WriteRequirementsDocument),
    ("WriteDataModelDocument", WriteDataModelDocument),
    ("WriteTechnicalDesignDocument", WriteTechnicalDesignDocument),
    ("WriteDevelopmentBacklogDocument", WriteDevelopmentBacklogDocument),
    ("WriteCode", WriteCode),
    ("AnalyzeData", AnalyzeDataAction)]

  /** No name is registered twice. */
  predicate DistinctNames<T>(reg: seq<(string, T)>) {
    forall i, j :: 0 <= i < j < |reg| ==> reg[i].0 != reg[j].0
  }

  /** With distinct names, every registered name finds its own class. */
  lemma {:induction false} LookupRegistered<T>(reg: seq<(string, T)>, i: nat)
    requires DistinctNames(reg) && i < |reg|
    ensures Lookup(reg, reg[i].0) == Some(reg[i].1)
    decreases i
  {
    if i > 0 {
      assert reg[0].0 != reg[i].0;
      assert reg[1..][i - 1] == reg[i];
      LookupRegistered(reg[1..], i - 1);
    }
  }

  /** The aipreneuros registry holds six different names; "Testing" is not
      one of them, so that stage cannot be configured. */
  lemma AipreneurosTaskNames()
    ensures |AipreneurosTasks| == 6 && DistinctNames(AipreneurosTasks)
    ensures GetTask(AipreneurosTasks, "Testing").Err?
    ensures GetTask(AipreneurosTasks, "Implementation") == Ok(Implementation)
  {
    var r := AipreneurosTasks;
    assert |r[0].0| == 21 && |r[1].0| == 13 && |r[2].0| == 14 && |r[3].0| == 15 && |r[4].0| == 14 && |r[5].0| == 12;
    assert r[2].0[0] != r[4].0[0];
    assert forall i :: 0 <= i < 6 ==> r[i].0 != "Testing";
    LookupRegistered(r, 4);
  }

  /** The appgen registry holds six different names; neither
      "RequirementsGathering" nor "Implementation" is one, although classes
      of those names exist. */
  lemma AppgenTaskNames()
    ensures |AppgenTasks| == 6 && DistinctNames(AppgenTasks)
    ensures GetTask(AppgenTasks, "RequirementsGathering").Err?
    ensures GetTask(AppgenTasks, "Implementation").Err?
    ensures GetTask(AppgenTasks, "ImplementSolution") == Ok(ImplementSolution)
  {
    var r := AppgenTasks;
    assert |r[0].0| == 18 && |r[1].0| == 13 && |r[2].0| == 14 && |r[3].0| == 15 && |r[4].0| == 17 && |r[5].0| == 11;
    assert forall i :: 0 <= i < 6 ==> r[i].0 != "RequirementsGathering" && r[i].0 != "Implementation";
    LookupRegistered(r, 4);
  }

  /** The appgen action registry holds seven different names. */
  lemma AppgenActionNames()
    ensures |AppgenActions| == 7 && DistinctNames(AppgenActions)
  {
    var r := AppgenActions;
    assert |r[0].0| == 13 && |r[1].0| == 25 && |r[2].0| == 22 && |r[3].0| == 28 && |r[4].0| == 31 && |r[5].0| == 9 && |r[6].0| == 11;
  }

  /** Every registered action name gives its own class. */
  lemma GetActionRegistered(i: nat)
    requires i < |AppgenActions|
    ensures GetAction(AppgenActions, AppgenActions[i].0) == Ok(AppgenActions[i].1)
  {
    AppgenActionNames();
    LookupRegistered(AppgenActions, i);
  }
}
