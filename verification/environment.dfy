/** The shared environment of the two pipelines (`aipreneuros/environment.py`
    and `appgen/environment.py`): the team lookup, the environment as a
    dictionary, and the plan of files written at the end of a run.

    The two classes differ in the name of the directory field
    (`directory` and `project_directory`) and in how `requirements.txt` is
    produced. */
module Environments {
  import opened Wrappers
  import opened Dicts
  import opened Documents
  import opened Artifacts
  import opened Roles

  /** Which of the two packages. */
  datatype Flavour = Aipreneuros | Appgen

  /** One value of a dictionary the pipeline formats prompts with: `None`,
      text, a number, a list of documents, the code base or the team. */
  datatype Field =
    | Null
    | Text(text: string)
    | Number(number: int)
    | Docs(docs: seq<Document>)
    | Code(code: Dict<Option<string>, string>)
    | Team(team: Dict<Option<string>, Role>)

  /** The environment's fields. The team is keyed by the configured role
      name, which may be missing. */
  datatype Env = Env(
    requestPrompt: Option<string>,
    codebase: Dict<Option<string>, string>,
    requirements: seq<Document>,
    design: seq<Document>,
    backlog: seq<Document>,
    team: Dict<Option<string>, Role>,
    directory: string)

  function TextOrNull(s: Option<string>): Field {
    if s.Some? then Text(s.value) else Null
  }

  /** `str(name)` of a role name that may be None. */
  function NameText(name: Option<string>): string {
    if name.Some? then name.value else "None"
  }

  /** `get_role(name)`: the team member, or a ValueError naming the role.
      A Role object is always truthy, so only a missing entry fails. A task
      without a role name looks up the key None, which a role configured
      without a name is hired under. */
  function GetRole(env: Env, name: Option<string>): (r: Result<Role>)
    ensures r.Ok? <==> name in env.team.entries
    ensures r.Ok? ==> r.value == env.team.entries[name]
    ensures r.Err? ==> r.error == ValueError("Role '" + NameText(name) + "' not found in the team. You must hire this role.")
  {
    match Get(env.team, name)
    case Some(role) => Ok(role)
    case None => Err(ValueError("Role '" + NameText(name) + "' not found in the team. You must hire this role."))
  }

  /** Hiring a role under a name makes `get_role` return it, and leaves
      every other name as it was. */
  lemma GetRoleAfterHire(env: Env, key: Option<string>, role: Role, name: Option<string>)
    ensures GetRole(env.(team := Set(env.team, key, role)), name) ==
            if key == name then Ok(role) else GetRole(env, name)
  {
  }

  /** The name of the directory field. */
  function DirectoryKey(f: Flavour): string {
    if f.Aipreneuros? then "directory" else "project_directory"
  }

  /** The seven keys of `dict()`, in order. */
  function EnvKeys(f: Flavour): seq<string> {
    ["request_prompt", "codebase", "requirements", "design", "backlog", "team", DirectoryKey(f)]
  }

  /** `dict()`: the seven constructor fields, unmodified, in constructor
      order. */
  function EnvDict(env: Env, f: Flavour): (d: Dict<string, Field>)
    ensures d.order == EnvKeys(f)
    ensures d.entries == map["request_prompt" := TextOrNull(env.requestPrompt),
                             "codebase" := Code(env.codebase),
                             "requirements" := Docs(env.requirements),
                             "design" := Docs(env.design),
                             "backlog" := Docs(env.backlog),
                             "team" := Team(env.team),
                             DirectoryKey(f) := Text(env.directory)]
  {
    var keys := EnvKeys(f);
    var entries := map["request_prompt" := TextOrNull(env.requestPrompt),
                       "codebase" := Code(env.codebase),
                       "requirements" := Docs(env.requirements),
                       "design" := Docs(env.design),
                       "backlog" := Docs(env.backlog),
                       "team" := Team(env.team),
                       DirectoryKey(f) := Text(env.directory)];
    EnvKeysDistinct(f);
    RawDict(keys, entries)
  }

  /** The seven keys have seven different lengths. */
  lemma EnvKeysDistinct(f: Flavour)
    ensures forall i, j :: 0 <= i < j < |EnvKeys(f)| ==> EnvKeys(f)[i] != EnvKeys(f)[j]
  {
    var k := EnvKeys(f);
    assert |k[0]| == 14 && |k[1]| == 8 && |k[2]| == 12 && |k[3]| == 6 && |k[4]| == 7 && |k[5]| == 4;
    assert |k[6]| == 9 || |k[6]| == 17;
  }

  /** The environment can be read back from its dictionary: every field is
      found under its key. */
  lemma EnvDictFields(env: Env, f: Flavour)
    ensures var d := EnvDict(env, f).entries;
            d["codebase"] == Code(env.codebase) && d["team"] == Team(env.team) &&
            d["requirements"] == Docs(env.requirements) && d["design"] == Docs(env.design) &&
            d["backlog"] == Docs(env.backlog) && d[DirectoryKey(f)] == Text(env.directory) &&
            (d["request_prompt"] == Null <==> env.requestPrompt.None?)
    ensures |EnvDict(env, f).entries| == 7
  {
    var d := EnvDict(env, f).entries;
    assert d.Keys == {"request_prompt", "codebase", "requirements", "design", "backlog", "team", DirectoryKey(f)};
    assert EnvDict(env, f).order == EnvKeys(f);
    assert |d.Keys| == |EnvKeys(f)| by {
      DistinctKeys(EnvKeys(f), d.Keys);
    }
  }

  /** A list without repeats whose elements are exactly a set has the
      set's size. */
  lemma {:induction false} DistinctKeys<K>(order: seq<K>, keys: set<K>)
    requires forall i, j :: 0 <= i < j < |order| ==> order[i] != order[j]
    requires forall k :: k in order <==> k in keys
    ensures |keys| == |order|
    decreases |order|
  {
    if |order| > 0 {
      var last := order[|order| - 1];
      var rest := order[..|order| - 1];
      forall k ensures k in rest <==> k in keys - {last} {
        if k in rest {
          var i :| 0 <= i < |rest| && rest[i] == k;
          assert order[i] == k;
        }
        if k in keys - {last} {
          assert k in order;
          var i :| 0 <= i < |order| && order[i] == k;
          assert i != |order| - 1;
          assert rest[i] == k;
        }
      }
      DistinctKeys(rest, keys - {last});
    } else {
      assert forall k :: k !in keys;
      assert keys == {};
    }
  }

  /** `requirements.txt` in the project directory. */
  function RequirementsWrite(dir: string, dependencies: string): FileWrite {
    FileWrite(dir, ["requirements.txt"], dependencies)
  }

  /** The files a run ends with, and the exception that cut it short, if
      any. */
  datatype WritePlan = WritePlan(writes: seq<FileWrite>, error: Option<Error>)

  /** aipreneuros `_save_artifacts`: the legacy backlog entries, then every
      document, then `requirements.txt` from the stored backlog's
      `RequiredPackages`, then every code file. A stored backlog of the
      data schema has no `RequiredPackages`: the AttributeError is raised
      after the documents are written and before any code is. */
  function SaveArtifacts(store: Store, dir: string): (p: WritePlan)
    ensures var pre := (if store.backlog.Some? then DocWrites(store.backlog.value, dir) else []) + DocWrites(store.docs, dir);
            pre <= p.writes &&
            (p.error.Some? <==> "backlog" in store.docs.entries && !store.docs.entries["backlog"].WebBacklogDoc?) &&
            (p.error.Some? ==> p.writes == pre && p.error.value == AttributeError("RequiredPackages")) &&
            (p.error.None? && "backlog" in store.docs.entries ==>
               p.writes == pre + [RequirementsWrite(dir, store.docs.entries["backlog"].web.requiredPackages)] + CodeWrites(store.code, dir)) &&
            ("backlog" !in store.docs.entries ==> p.writes == pre + CodeWrites(store.code, dir))
  {
    var legacy := if store.backlog.Some? then DocWrites(store.backlog.value, dir) else [];
    var docs := legacy + DocWrites(store.docs, dir);
    match Get(store.docs, "backlog")
    case None => WritePlan(docs + CodeWrites(store.code, dir), None)
    case Some(b) =>
      match RequiredPackages(b)
      case Err(e) => WritePlan(docs, Some(e))
      case Ok(dependencies) => WritePlan(docs + [RequirementsWrite(dir, dependencies)] + CodeWrites(store.code, dir), None)
  }

  /** Every stored document is written to `docs/<name>.md` with its
      markdown, whatever else happens. */
  lemma SaveArtifactsWritesEveryDocument(store: Store, dir: string, name: string)
    requires name in store.docs.entries
    ensures FileWrite(dir, ["docs", name + ".md"], Doc2Md(store.docs.entries[name])) in SaveArtifacts(store, dir).writes
  {
    DocWritesOnePerName(store.docs, dir, name);
    var legacy := if store.backlog.Some? then DocWrites(store.backlog.value, dir) else [];
    var w := FileWrite(dir, ["docs", name + ".md"], Doc2Md(store.docs.entries[name]));
    assert w in legacy + DocWrites(store.docs, dir);
  }

  /** Every named code file is written when the run is not cut short. */
  lemma SaveArtifactsWritesEveryCodeFile(store: Store, dir: string, name: string)
    requires Some(name) in store.code.entries
    requires SaveArtifacts(store, dir).error.None?
    ensures FileWrite(dir, [name], store.code.entries[Some(name)]) in SaveArtifacts(store, dir).writes
  {
    CodeWritesComplete(store.code, dir, name);
  }

  /** The initial artifacts give no files and no error. */
  lemma SaveArtifactsInitial(dir: string)
    ensures SaveArtifacts(InitialStore(), dir) == WritePlan([], None)
  {
  }

  /** appgen `_setup_project_env`: `requirements.txt` from the stored
      backlog's `RequiredPythonPackages`, or nothing (a warning) when no
      backlog is stored. */
  function SetupProjectEnv(store: Store, dir: string): (r: Result<seq<FileWrite>>)
    ensures "backlog" !in store.docs.entries ==> r == Ok([])
    ensures "backlog" in store.docs.entries ==>
              (r.Ok? <==> store.docs.entries["backlog"].DataBacklogDoc?) &&
              (r.Ok? ==> r.value == [RequirementsWrite(dir, store.docs.entries["backlog"].data.requiredPythonPackages)]) &&
              (r.Err? ==> r.error == AttributeError("RequiredPythonPackages"))
  {
    match Get(store.docs, "backlog")
    case None => Ok([])
    case Some(b) =>
      var dependencies :- RequiredPythonPackages(b);
      Ok([RequirementsWrite(dir, dependencies)])
  }

  /** appgen `_save_artifacts`: every document, then every code file. */
  function SaveArtifactsAppgen(store: Store, dir: string): (w: seq<FileWrite>)
    ensures DocWrites(store.docs, dir) <= w
    ensures |w| <= |store.docs.order| + |store.code.order|
  {
    DocWrites(store.docs, dir) + CodeWrites(store.code, dir)
  }

  /** Every stored document and every named code file is written by
      appgen's `_save_artifacts`. */
  lemma SaveArtifactsAppgenComplete(store: Store, dir: string, doc: string, file: string)
    requires doc in store.docs.entries && Some(file) in store.code.entries
    ensures FileWrite(dir, ["docs", doc + ".md"], Doc2Md(store.docs.entries[doc])) in SaveArtifactsAppgen(store, dir)
    ensures FileWrite(dir, [file], store.code.entries[Some(file)]) in SaveArtifactsAppgen(store, dir)
  {
    DocWritesOnePerName(store.docs, dir, doc);
    CodeWritesComplete(store.code, dir, file);
  }
}
