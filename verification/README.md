# AppGenPro pipeline core, in Dafny

This project models the deterministic layer of the `aipreneuros` and
`appgen` packages: a pipeline in which configured roles (LLM agents) work
through a fixed list of tasks — requirements, data model, design, backlog,
implementation — and leave documents and code files behind.

The language model, `extract_code`, `execute_code`, `initiate_chat`,
`str.format` and `model_validate_json` are parameters (function-typed
oracles). File writes are returned as `FileWrite` intents instead of being
performed. Python exceptions are `Result` errors, and Python dicts are
insertion-ordered maps (`Dicts.Dict`).

One module per component:

| module | file | what it models |
|---|---|---|
| `Wrappers` | `wrappers.dfy` | `Option`, `Result` and the Python exceptions the pipeline raises |
| `PyStr` | `pystr.dfy` | the `str` methods used: `find`, `split`, `strip`, `lower`, `join`, `int()`, slicing |
| `Dicts` | `dicts.dfy` | insertion-ordered dicts with `get`, item assignment and `update` |
| `Json` | `json.dfy` | decoded JSON values, `str()`, and `json_to_markdown` |
| `Cost` | `cost.dfy` | the price table and the per-call cost estimate |
| `Backlog` | `backlog.dfy` | `wrap_in_backticks`, `pretty_list` and the two backlog schemas' `parse` |
| `Documents` | `documents.dfy` | stored documents, their markdown and their package fields |
| `Artifacts` | `artifacts.dfy` | the artifact store, `save_document` and `save_code` |
| `Chat` | `chat.dfy` | messages, the context pop and one completion request |
| `Decision` | `decision.dfy` | `extract_state_info` |
| `CodeBlocks` | `codeblocks.dfy` | `_parse_code_blocks`, `_save_code_blocks` and `_write_code` of the pair-programming reply |
| `WriteDocs` | `writedoc.dfy` | `WriteDocument._run` and the default document writers |
| `Roles` | `role.dfy` | `Role.from_dict`, the termination tests, `_think` and `_react` |
| `Environments` | `environment.dfy` | `get_role`, `dict()`, and the write plans of `_save_artifacts` and `_setup_project_env` |
| `Registry` | `registry.dfy` | the `get_task` and `get_action` registries |
| `Tasks` | `tasks.dfy` | `Task`: prompt merge, the `execute` protocol and every stage's `update_environment` hook |
| `Pipeline` | `pipeline.dfy` | `App` and `TaskChain`: GitHub flag, setup, in-order execution and post-processing |

## Model

| member | source | states |
|---|---|---|
| Json.Hashes | aipreneuros/utils/write_utils.py:53 | `"#" * depth` is `depth` hashes and nothing else, and empty for a non-positive depth |
| Json.Markdown | aipreneuros/utils/write_utils.py:35-69 | anything but a dict renders as its `str()`, and the empty dict as the empty string |
| Json.Show | aipreneuros/utils/write_utils.py:54-67 | `str()` of a string is the string itself; a list prints between brackets and a dict between braces |
| Json.Repr | aipreneuros/utils/write_utils.py:54 | `repr()` of a string is quoted with the quote Python chooses, at both ends; any other value prints as `str()` |
| Json.StrReprRoundTrip | aipreneuros/utils/write_utils.py:54 | `repr` of a string uses a double quote iff the text holds a single quote and no double quote, and reading back its escapes gives the string again |
| Json.StrReprPlain | aipreneuros/utils/write_utils.py:54 | a string of printable characters without a single quote or a backslash is printed between single quotes unchanged |
| Json.DoubleQuoted | aipreneuros/utils/write_utils.py:54 | a printable string holding a single quote but no double quote or backslash is printed between double quotes unchanged |
| Json.ShowPair | aipreneuros/utils/write_utils.py:54 | a two-item list prints its items' `repr`s between brackets, separated by a comma and a space |
| Json.Omit | aipreneuros/actions/document_schema/backlog_data.py:64 | `exclude` keeps exactly the entries whose key is not excluded |
| Json.OmitAppend | aipreneuros/actions/document_schema/backlog_data.py:64 | excluding keys from a concatenation excludes them from each part |
| Json.OmitMiddle | aipreneuros/actions/document_schema/backlog_data.py:64 | excluding the key of one entry drops exactly that entry when no other entry has an excluded key |
| Json.MarkdownTitleFirst | aipreneuros/utils/write_utils.py:60-61 | a dict whose first key is a string `Title` renders with that title as a level-one heading first |
| Json.MarkdownOfConcat | aipreneuros/utils/write_utils.py:47-64 | a dict renders as the concatenation of its entries' sections in key order: splitting the entries splits the text |
| Json.MarkdownOfSmallObjects | aipreneuros/utils/write_utils.py:47-64 | the empty dict renders as `""`, and a one-key dict as that key's section |
| Json.SectionShapes | aipreneuros/utils/write_utils.py:51-64 | an empty list gives a heading and a lone `- `; a nested dict gets a heading at `depth` and renders one level deeper; a scalar `Title` is a level-one heading at every depth; any other scalar is a heading at `depth` and its text |
| Cost.TablePositive | aipreneuros/utils/cost.py:7-32 | every price in the table is positive |
| Cost.PriceOf | aipreneuros/utils/cost.py:54-55 | a model has a price iff it is listed, and that price is positive and is a table entry for that model |
| Cost.EstimateCost | aipreneuros/utils/cost.py:53-60 | an unlisted model costs 0; a listed one is charged at one of that model's table prices, split prices per direction and a flat price on the total, per thousand tokens |
| Cost.CostNonNegative | aipreneuros/utils/cost.py:53-60 | the estimate is never negative for non-negative token counts |
| Cost.CostMonotone | aipreneuros/utils/cost.py:53-60 | more prompt tokens or more completion tokens never cost less |
| Cost.UniqueEntry | aipreneuros/utils/cost.py:54-58 | a model named once in a table is charged that entry's price |
| Cost.SamplePriceGpt4 | aipreneuros/utils/cost.py:53-56 | `gpt-4` with a thousand tokens each way costs 0.09 |
| Cost.SamplePriceDavinci | aipreneuros/utils/cost.py:57-58 | `text-davinci-003` with two thousand tokens costs 0.04 at its flat rate |
| Cost.SamplePriceUnlisted | aipreneuros/utils/cost.py:59-60 | a model missing from the table costs 0 |
| Cost.AccrueCost | aipreneuros/utils/cost.py:34-51 | the running total grows by exactly the cost returned, and never shrinks |
| Backlog.WrapInBackticks | aipreneuros/actions/document_schema/backlog_data.py:139-145 | the result is always fenced; a fenced string is returned unchanged; anything else becomes "```python\n" + s + "\n```" |
| Backlog.WrapIdempotent | aipreneuros/actions/document_schema/backlog_web.py:188-194 | wrapping twice is wrapping once |
| Backlog.WrapValue | aipreneuros/actions/document_schema/backlog_web.py:105 | wrapping succeeds iff the field holds a string; a list raises AttributeError on `startswith` |
| Backlog.PrettyItem | aipreneuros/actions/document_schema/backlog_data.py:150-152 | a list item of two or more elements becomes one bold pair line; a shorter one raises IndexError; anything else contributes nothing |
| Backlog.PrettyItems | appgen/actions/document_schema/backlog.py:18-24 | succeeds iff every list item has two elements; then one line per list item, in order, each the pair text of that item |
| Backlog.PrettyList | aipreneuros/actions/document_schema/backlog_web.py:205-211 | a string (or a dict) gives no lines, a list is filtered item by item, and a non-iterable raises TypeError |
| Backlog.PrettyListShrinks | aipreneuros/actions/document_schema/backlog_web.py:205-211 | the output is never longer than the input, and a list without list items gives `[]` |
| Backlog.TransformData | aipreneuros/actions/document_schema/backlog_data.py:59-62 | succeeds iff both list fields hold complete pairs, otherwise IndexError; then the package name and API spec are `wrap_in_backticks` of the input's, each list is `pretty_list` of the input's (one line per list item), and title and packages are untouched |
| Backlog.DataJson | aipreneuros/actions/document_schema/backlog_data.py:9-55 | the dump has the schema's six fields with the title first, and `RequiredPythonPackages` is present iff it is not excluded |
| Backlog.DataJsonExclude | aipreneuros/actions/document_schema/backlog_data.py:64 | dumping with `RequiredPythonPackages` excluded is dumping every field and dropping exactly that one |
| Backlog.ParseData | aipreneuros/actions/document_schema/backlog_data.py:57-65 | parsing succeeds exactly when the field transforms do, reading the `exclude` list as a set (the corrected half of the Findings row on list `exclude`) |
| Backlog.ParseDataSections | aipreneuros/actions/document_schema/backlog_data.py:64-65 | the rendering is the title line then the four transformed fields' sections, and does not depend on `RequiredPythonPackages` |
| Backlog.AppgenFormatExampleParse | appgen/actions/document_schema/backlog.py:91-106 | the format example's package name is already fenced and survives `parse` unchanged; the blank API spec is fenced; the single task pair becomes one line |
| Backlog.ParseWeb | aipreneuros/actions/document_schema/backlog_web.py:102-113 | as written, parsing a web backlog always raises AttributeError |
| Backlog.WebJson | aipreneuros/actions/document_schema/backlog_web.py:10-85 | the dump has the schema's nine fields with title, package name and `UX` first, and `RequiredPackages` is present iff it is not excluded |
| Backlog.WebJsonExclude | aipreneuros/actions/document_schema/backlog_web.py:112 | dumping with `RequiredPackages` excluded is dumping every field and dropping exactly that one |
| Backlog.TransformWebIntended | aipreneuros/actions/document_schema/backlog_web.py:104-110 | with the formatters the right way round, succeeds iff every list field holds complete pairs, otherwise IndexError; the package name is `wrap_in_backticks` of the input's, each of the six lists is `pretty_list` of the input's with one line per list item, and title and packages are kept |
| Backlog.ParseWebIntended | aipreneuros/actions/document_schema/backlog_web.py:112-113 | the intended parse succeeds exactly when the field transforms do |
| Backlog.ParseWebIntendedSections | aipreneuros/actions/document_schema/backlog_web.py:104-113 | the intended parse is the title line and then the seven other transformed fields' sections in declaration order |
| Backlog.ParseWebIntendedIgnoresRequired | aipreneuros/actions/document_schema/backlog_web.py:112 | the rendered web backlog does not depend on `RequiredPackages` |
| Documents.ToJson | aipreneuros/utils/write_utils.py:17-20 | a document dumps to a JSON object holding every field in declaration order: a plain document its fields, a backlog its `DataJson`/`WebJson` with nothing excluded |
| Documents.RequiredPackages | aipreneuros/environment.py:75 | only a web backlog has `RequiredPackages`; any other document raises AttributeError |
| Documents.RequiredPythonPackages | appgen/environment.py:86 | only a data backlog has `RequiredPythonPackages`; any other document raises AttributeError |
| Documents.Parse | aipreneuros/actions/write_document.py:95-101 | parsing never changes a plain document; a backlog parses iff its field transforms succeed, giving the markdown and the transformed copy of the parse it calls; the corrected half of the Findings row on list `exclude` |
| Documents.ParseAsWritten | aipreneuros/actions/document_schema/backlog_data.py:57-65 | as written: every schema with its own `parse` raises TypeError at `model_dump_json(exclude=[...])`, after a backlog's transforms (IndexError first when they fail; the web backlog's AttributeError first); the base `parse` is unaffected |
| Documents.ParseAsWrittenRejectsList | aipreneuros/actions/document_schema/sdd_data.py:112 | wherever a schema with its own `parse` parses under the intended reading, the code as written raises |
| Documents.ParseBaseSchema | aipreneuros/actions/document_schema/document.py:42-62 | a schema without its own `parse` (the requirements documents) parses to exactly the markdown of every field |
| Documents.ParseIgnoresExcluded | aipreneuros/actions/document_schema/sdd_data.py:102-113 | a schema's own `parse` ignores the fields it excludes (diagrams and, for the data model, the fact and dimension tables) and renders every other field's section in order |
| Documents.Doc2Md | aipreneuros/utils/write_utils.py:17-20 | a plain document renders its own fields; a backlog's markdown opens with its title as a level-one heading |
| Artifacts.InitialStore | aipreneuros/config/config.py:47 | the store starts with no documents, no code and no legacy backlog |
| Artifacts.SaveDocument | aipreneuros/utils/write_utils.py:9-15 | one write to `project_dir/docs/filename` holding the document's markdown |
| Artifacts.SaveCode | aipreneuros/utils/write_utils.py:22-32 | a write happens iff both code and filename are given, and it writes that code to that file |
| Artifacts.DocWrites | aipreneuros/environment.py:66-70 | one write per stored document, in key order, to `docs/<name>.md` with its markdown |
| Artifacts.DocWritesOnePerName | aipreneuros/environment.py:66-70 | every stored document is written, and no two writes go to the same file |
| Artifacts.CodeWritesFrom | aipreneuros/environment.py:82-86 | every write goes to a single named file in the directory and holds that file's stored code |
| Artifacts.CodeWritesComplete | aipreneuros/environment.py:82-86 | every named code file is written with its code; a block without a filename is skipped |
| Dicts.UpdateSpec | appgen/tasks/implement_solution.py:9 | `update` adds or replaces every key of the argument, keeps every other key's value and keeps the old key order as a prefix |
| Chat.PopContext | aipreneuros/roles/role.py:292 | an empty conversation raises IndexError; otherwise the newest message's context is returned and removed, and nothing else changes |
| Chat.PopContextTwice | aipreneuros/roles/role.py:292 | a second pop finds no context and changes nothing |
| Chat.FrameWithoutHistory | aipreneuros/roles/role.py:291-292 | a request without the history sends only the system messages and the prompt |
| Chat.Ask | aipreneuros/actions/write_document.py:80-84 | one request: IndexError on an empty conversation; otherwise the client gets the popped context and the framed messages, and the total grows by the reply's cost |
| Decision.ExtractStateInfo | aipreneuros/roles/role.py:303-308 | a reply without `RESPONSE: ` has no decision (IndexError) |
| Decision.ExtractStateInfoResponse | aipreneuros/roles/role.py:304-305 | the response is the text after the first `RESPONSE: `, up to a second one |
| Decision.ExtractStateInfoNeedsState | aipreneuros/roles/role.py:304-307 | a decision needs `STATE: ` before the first `RESPONSE: `, and without it raises IndexError |
| Decision.ExtractStateInfoRoundTrip | aipreneuros/roles/role.py:303-308 | writing `preamble + "STATE: " + n + "\nRESPONSE: " + r` and parsing it gives back `(r, n)` when neither the preamble nor `r` holds a marker |
| Decision.ExtractStateInfoSecondResponse | aipreneuros/roles/role.py:304-305 | with two `RESPONSE: ` markers only the text between them is returned |
| Decision.ExtractStateInfoNoResponse | aipreneuros/roles/role.py:304-305 | `STATE: 1` alone has no decision |
| Decision.ExtractStateInfoNoState | aipreneuros/roles/role.py:306-307 | a response with no state marker before it has no decision |
| Decision.ExtractStateInfoStateText | aipreneuros/roles/role.py:303-308 | for any reply shaped like a decision, parsing succeeds iff the stripped state text is an integer, with that response and number; otherwise it raises the ValueError of `int()` |
| CodeBlocks.FilenameAsWritten | aipreneuros/actions/write_code.py:136-139 | as written, a block has a filename iff it starts with the directive |
| CodeBlocks.FilenameOf | aipreneuros/actions/write_code.py:136-139 | intended rule: a block has a filename iff it starts with the directive |
| CodeBlocks.FilenameOfDirective | aipreneuros/actions/write_code.py:136-137 | a first line `# filename: f` names `strip(f)` under both rules |
| CodeBlocks.FilenameAsWrittenDropsLastChar | aipreneuros/actions/write_code.py:137 | for a block that is only the directive line, the written rule drops the last character while the intended one names the whole file |
| CodeBlocks.SaveBlock | aipreneuros/tasks/implementation.py:149-156 | the recorded triple keeps the language and the full code, directive line included, has a filename iff the directive is present, and names the file as the program does whenever the block holds a newline |
| CodeBlocks.SaveBlocks | aipreneuros/actions/write_code.py:134-142 | one triple per block, in block order |
| CodeBlocks.StoreCode | aipreneuros/actions/write_code.py:143-147 | at most one file write per saved block |
| CodeBlocks.StoreCodeKeys | aipreneuros/actions/write_code.py:143-144 | the stored keys are the old keys and the blocks' filenames, None included |
| CodeBlocks.StoreCodeLastWins | aipreneuros/actions/write_code.py:143-144 | the last block for a filename wins; a filename no block names keeps its code |
| CodeBlocks.StoreCodeWrites | aipreneuros/actions/write_code.py:145-147 | every block with a filename is written to that file in the coding directory, and every write comes from such a block |
| CodeBlocks.StoreCodeAppend | aipreneuros/actions/write_code.py:134-147 | storing `a + b` is storing `a` and then `b` into the result |
| CodeBlocks.SaveCodeBlocks | aipreneuros/actions/write_code.py:131-148 | the triples, the code map and the writes are those of storing every block in order |
| CodeBlocks.SaveCodeBlocksAppend | aipreneuros/actions/write_code.py:127-128 | saving the blocks of several messages is saving them message by message, extending the triples |
| CodeBlocks.Newest | aipreneuros/actions/write_code.py:117-118 | the `min(len, last_n)` newest messages, newest first |
| CodeBlocks.NewestIgnoresOlder | aipreneuros/actions/write_code.py:117-118 | messages older than the newest `last_n` are never looked at |
| CodeBlocks.BlocksOf | aipreneuros/actions/write_code.py:119-124 | an empty message and a lone unknown-language block contribute nothing; otherwise all extracted blocks, in order |
| CodeBlocks.ParseCodeBlocks | aipreneuros/actions/write_code.py:115-129 | the loop saves exactly the blocks of the newest `last_n` messages, newest message first |
| CodeBlocks.ParseNewestOnly | aipreneuros/tasks/implementation.py:95 | with `last_n = 1` only the newest message's blocks are saved |
| CodeBlocks.ExecMessage | aipreneuros/actions/write_code.py:84-104 | a python block without a filename raises AttributeError; otherwise exactly one user message iff the block is a test file or a shell script |
| CodeBlocks.RunBlocks | aipreneuros/actions/write_code.py:84-104 | the conversation only grows, by user messages, at most one per block; it fails iff some python block has no filename; nothing is added iff no block executes |
| CodeBlocks.BashPolicy | aipreneuros/tasks/implementation.py:110-118 | a `bash` block is run by the action and only warned about by the task |
| CodeBlocks.WriteCodeReply | aipreneuros/actions/write_code.py:66-112 | without a client nothing happens and the reply is `(False, None)`; otherwise the newest message's blocks are saved, executed blocks append their results, then the model is asked and the reply is `(True, text)` |
| CodeBlocks.WriteCodeRun | aipreneuros/actions/write_code.py:53-64 | it fails exactly on an empty conversation, with IndexError |
| CodeBlocks.WriteCodeRunOldestOnly | aipreneuros/actions/write_code.py:56 | the chat is seeded with the oldest message, and later messages do not matter |
| WriteDocs.WriteDocumentRun | aipreneuros/actions/write_document.py:66-102 | a reply that fails validation leaves the docs map unchanged; a valid one is stored under the action's key and its markdown returned, the chat-front-end variant parsing a copy |
| WriteDocs.WriteDocumentFrame | aipreneuros/actions/write_document.py:87-90 | every other key of the docs map keeps its document |
| WriteDocs.WriteDocumentTwice | aipreneuros/actions/write_document.py:89-90 | two successful runs keep only the second document |
| WriteDocs.WriteDocumentCost | aipreneuros/actions/write_document.py:80-83 | the running cost only grows, valid reply or not |
| WriteDocs.DefaultWriters | aipreneuros/actions/write_document.py:106-203 | the four data writers use four different keys, and each web writer differs from its data twin only in the schema |
| Roles.LookupAll | aipreneuros/roles/role.py:94-96 | the actions are looked up in configured order; it fails iff some lookup fails, with the first failing name's error |
| Roles.FromDict | aipreneuros/roles/role.py:90-99 | succeeds iff every action name resolves; role, goal and constraints are the entry's (empty when missing); defaults of one loop, ten automatic replies and `NEVER`; the system message is the prefix of those three plus the TERMINATE instruction |
| Roles.FromDictGiven | aipreneuros/roles/role.py:134-154 | an entry that sets every key reads back as that role: setting, limits and system message all come from the entry |
| Roles.FromDictDefaults | aipreneuros/roles/role.py:134-143 | an empty entry builds the default role: empty setting, one loop, ten automatic replies, `NEVER`, no actions and no watch list |
| Roles.UserIsTermination | aipreneuros/roles/role.py:148 | the proxy stops on a message ending in TERMINATE or made only of spaces, and never on an empty one |
| Roles.AssistantIsTermination | aipreneuros/roles/role.py:165 | the coding assistant stops on a message ending in TERMINATE or made only of spaces, and never on an empty one |
| Roles.TerminationTestsAgree | aipreneuros/roles/role.py:148-165 | the proxy's and the assistant's termination tests accept the same messages, and neither accepts an empty one |
| Roles.StateLines | aipreneuros/roles/role.py:284 | one line per action, in order: its index, `: `, its name, ` --> ` and its description |
| Roles.StateLineReadBack | aipreneuros/roles/role.py:284 | each line reads back: the text before its first `: ` parses to the action's index, and the text after it is the name, the arrow and the description |
| Roles.Think | aipreneuros/roles/role.py:265-300 | IndexError on an empty conversation; `("", -1)` without asking the model iff the newest message lowers to `""`, `terminate` or `exit`; otherwise the parsed reply to a request of the system messages and the state prompt |
| Roles.Deliberate | aipreneuros/roles/role.py:279-296 | the request sends the system messages and the state prompt only, pops the newest context and adds the cost |
| Roles.PyIndex | aipreneuros/roles/role.py:232 | Python indexing: defined iff `-len <= i < len`, negative indices counting from the end |
| Roles.React | aipreneuros/roles/role.py:206-235 | no loop gives None and changes nothing; a failing think propagates; every reply it gives is marked final |
| Roles.ReactLoopsOnce | aipreneuros/roles/role.py:206-235 | every positive loop count reacts exactly like one loop |
| Roles.ReactEndsOnEndingMessage | aipreneuros/roles/role.py:207-210 | an ending message ends the reaction with TERMINATE, asking no model and leaving the conversation unchanged |
| Roles.ReactRunsChosenAction | aipreneuros/roles/role.py:221-233 | a chosen state appends the response (if any) once and runs exactly that action; an index out of Python's range raises IndexError before any action runs |
| Roles.ReactFinishes | aipreneuros/roles/role.py:209-214 | state -1 returns the response, or TERMINATE when it is empty, appending nothing and running no action |
| Roles.ReactOnDecision | aipreneuros/roles/role.py:206-233 | a model reply in decision format choosing action `n` runs action `n` on the conversation extended by the response |
| Environments.GetRole | aipreneuros/environment.py:102-106 | the hired role, or ValueError naming the role when it is not hired |
| Environments.GetRoleAfterHire | appgen/environment.py:55-59 | hiring under a name makes `get_role` return that role and leaves every other name as it was |
| Environments.EnvDict | aipreneuros/environment.py:109-118 | seven keys in constructor order, each holding its field unmodified |
| Environments.EnvDictFields | appgen/environment.py:44-53 | every field can be read back from its key, and there are exactly seven keys, the last `project_directory` for appgen |
| Environments.SaveArtifacts | aipreneuros/environment.py:55-87 | legacy and stored documents are written first; a stored backlog without `RequiredPackages` stops the run there; otherwise `requirements.txt` and then every code file |
| Environments.SaveArtifactsWritesEveryDocument | aipreneuros/environment.py:66-70 | every stored document is written, whatever else happens |
| Environments.SaveArtifactsWritesEveryCodeFile | aipreneuros/environment.py:82-86 | every named code file is written when the run is not cut short |
| Environments.SaveArtifactsInitial | aipreneuros/environment.py:55-87 | the initial store writes nothing and raises nothing |
| Environments.SetupProjectEnv | appgen/environment.py:78-88 | no stored backlog writes nothing; a data backlog writes its packages to `requirements.txt`; any other backlog raises AttributeError |
| Environments.SaveArtifactsAppgen | appgen/environment.py:90-101 | the document writes come first, and there is at most one write per document and per code entry |
| Environments.SaveArtifactsAppgenComplete | appgen/environment.py:93-101 | every stored document and every named code file is written |
| Registry.Lookup | aipreneuros/tasks/__init__.py:30-31 | a name has a class iff it is registered |
| Registry.GetTask | aipreneuros/tasks/__init__.py:29-33 | a registered name gives its class; any other raises ValueError listing every registered name |
| Registry.GetAction | appgen/actions/__init__.py:33-36 | a registered name gives its class; any other raises ValueError joining every name with ", " |
| Registry.LookupRegistered | appgen/tasks/__init__.py:29-31 | with distinct names, every registered name finds its own class |
| Registry.AipreneurosTaskNames | aipreneuros/tasks/__init__.py:20-33 | six distinct names; `Testing` is not registered; `Implementation` is |
| Registry.AppgenTaskNames | appgen/tasks/__init__.py:20-33 | six distinct names; neither `RequirementsGathering` nor `Implementation` is registered; `ImplementSolution` is |
| Registry.AppgenActionNames | appgen/actions/__init__.py:23-31 | seven distinct names |
| Registry.GetActionRegistered | appgen/actions/__init__.py:23-36 | every registered action name gives its own class |
| Tasks.UpdateEnvironment | aipreneuros/tasks/requirements_gathering.py:10-14 | the stage hook for each task kind: the default hook (aipreneuros/tasks/task.py:105-108) changes nothing; a guarded hook appends the stored document when present and otherwise changes nothing; the unguarded appgen hook (appgen/tasks/gather_requirements.py:10-12) appends the stored document or raises KeyError and changes nothing; the code hook (appgen/tasks/implement_solution.py:8-9) adds every stored file to the code base and leaves the lists alone; every other field is untouched |
| Tasks.UpdateEnvironmentGrows | aipreneuros/tasks/technical_design.py:8-10 | a hook keeps the old list as a prefix, grows it by at most one, and never removes a code-base key |
| Tasks.StageHooks | aipreneuros/tasks/testing.py:8-10 | which stages append which document to which list, which merge code, and that DesignSolution behaves like Testing |
| Tasks.InitializePrompt | aipreneuros/tasks/task.py:126-132 | only the placeholders change: they become the old ones updated by the environment's dict, old keys first; the prompt is the task prompt formatted with them, or None when the task has no prompt |
| Tasks.InitializePromptMerge | aipreneuros/tasks/task.py:129 | environment fields override same-named placeholders, other placeholders are kept, and a second merge changes nothing |
| Tasks.Execute | aipreneuros/tasks/task.py:34-58 | a missing role raises before anything happens; otherwise prompt, chat, then the hook on the last message, or IndexError when the chat is empty |
| Tasks.ExecuteProtocol | aipreneuros/tasks/task.py:43-58 | the hook runs at most once, last, after the chat started; without pair programming the input mode is ALWAYS at the chat and NEVER after |
| Tasks.ExecuteMissingRole | aipreneuros/tasks/task.py:39-42 | a missing role raises ValueError with no prompt, chat or hook |
| Tasks.TaskDict | aipreneuros/tasks/task.py:140-147 | five keys in order, without the placeholders, each holding its field (None as null) |
| Tasks.TaskDictReadBack | aipreneuros/tasks/task.py:140-147 | two tasks have the same `dict()` exactly when they agree on its five fields; description and prompt read back from it |
| Pipeline.GithubSetting | aipreneuros/app.py:41-46 | GitHub is used iff a token is given, so the missing-token bare `Exception` never fires; the appgen driver (appgen/task_chain.py:37-42) has the same flag and the same unreachable exception |
| Pipeline.BuildTask | aipreneuros/tasks/task.py:9-22 | a task gets its class's hook, the configured fields and five automatic replies by default; only aipreneuros Implementation pair-programs |
| Pipeline.SetupTasks | aipreneuros/app.py:75-79 | one task per entry, in configured order, built from the registered class; it fails iff some entry has no name, an unregistered one or a key the constructor does not take, keeping the tasks built before it |
| Pipeline.SetupTasksStops | appgen/task_chain.py:65-68 | the loop stops at the first bad entry: a missing name is a KeyError; an unregistered name, or a key the constructor does not take (TypeError naming `Task.__init__`), fails after the name was popped; later entries are untouched |
| Pipeline.SetupTasksTwice | aipreneuros/app.py:77 | a second setup on the same configuration raises KeyError on the first entry |
| Pipeline.InitializeTeam | aipreneuros/app.py:100-107 | the team can be built iff every configured role can |
| Pipeline.TeamNames | appgen/task_chain.py:88-95 | the team holds exactly the configured role names |
| Pipeline.TeamLastWins | aipreneuros/app.py:102-107 | a name holds the role of the last entry configuring it |
| Pipeline.SetupEnvironment | appgen/task_chain.py:46-68 | a bad role stops setup before the environment exists; otherwise the environment is in `root/name`, appgen's starts empty, and the tasks are those of the task loop |
| Pipeline.RunTasks | aipreneuros/app.py:128-130 | tasks run in list order until one raises; without an exception every task ran |
| Pipeline.RunTasksSplit | appgen/task_chain.py:75-77 | running a list and then one more task is running the longer list |
| Pipeline.ExecuteSucceeded | aipreneuros/tasks/task.py:51-58 | a task that finishes ran its hook exactly once |
| Pipeline.RunTasksUpdatesEach | aipreneuros/app.py:128-130 | a run without an exception runs every task's hook exactly once |
| Pipeline.PostProcessing | aipreneuros/app.py:150-158 | the artifacts are written, then the push happens iff GitHub is used, giving its link; an exception while writing stops before the push |
| Pipeline.PostProcessingAppgen | appgen/task_chain.py:115-119 | `_setup_project_env` runs first and its exception stops everything; then documents and code are written and the push happens iff GitHub is used |
| Pipeline.RequirementsFirst | appgen/task_chain.py:116-117 | with a data backlog stored, `requirements.txt` is the first write, followed by the documents and the code |

## Left out

- The language model, `extract_code`, `execute_code`, `initiate_chat` with every agent reply it triggers, `str.format`, `model_validate_json` and the GitHub push are oracles, because they are network calls or foreign library code.
- Logging, the chat front end (`cl.*` calls, avatars, task-list status) and the async variants `a_execute`/`asynch_execute` are UI and concurrency.
- Reading the configuration file and creating directories are I/O. The parsed configuration is an input.
- `aipreneuros/actions/__init__.py` (the aipreneuros `get_action`) is not part of this model. Role construction takes the action lookup as a parameter.
- The classes `SolutionDesign`, `DataAnalysis` and `AnalyzeData` are not part of this model. Their hooks are taken to be the base class's no-op.
- The appgen `Task` base class, `write_utils` and `Role` are not part of this model. They are taken to behave like the aipreneuros ones.
- The coding assistant's system message and agent parameters other than those `from_dict` sets are not modelled. They only configure the chat oracle.
- Mermaid rendering is I/O and is left out, with the image paths `parse` returns. Documents other than the two backlogs are records of named JSON fields. Their `parse` is modelled by the fields it excludes.
- Message content that is None is modelled as the empty string. The termination tests treat both alike, but `_think` does not. At aipreneuros/roles/role.py:265-266, `.lower()` on None raises AttributeError, while the model ends the conversation.
- `last_message` on an empty chat is modelled as IndexError.
- Mutable default arguments are left out. Examples are `placeholders={}` and the lists passed to `setup_environment`. The model builds a fresh value each time.
- The artifact store always holds `docs` and `code`, as the initial configuration does. The `"docs" in` and `"code" in` checks therefore always succeed.
- Cost is computed over exact reals. Float rounding is not modelled.
- Pipeline.PostProcessingAppgen: the appgen driver only shows the push link in the chat front end and returns nothing. The model returns the link.
- Pipeline.SetupEnvironment: the environment the aipreneuros driver leaves behind after a task entry fails is returned. The half-built task list is returned too.
- Pipeline.SetupTasks: an explicit `null` in a task entry is treated like a missing key. So `max_consecutive_auto_reply: null` gives 5 where the program passes None on.
- Json.Repr: floating-point JSON numbers have no `Value` variant, so their `str()` is not modelled. Characters beyond U+00FF all count as printable, so the `\u`/`\U` escapes Python writes for unprintable ones are not modelled.
- Artifacts.SaveDocument: the markdown inherits the gaps listed under Json.Repr.
- Artifacts.DocWrites: the contents inherit the gaps listed under Json.Repr.
- Artifacts.SaveCode: a directive with an empty or blank name gives a write whose target is the code directory itself. The program's `write_text` then raises IsADirectoryError. What the file system does with a write is not modelled.
- CodeBlocks.SaveBlock: names files by the corrected rule `FilenameOf` (see Findings). The program's rule differs only on a block that is just the directive line with no newline, where it drops the last character.
- CodeBlocks.StoreCodeWrites: inherits the corrected filename rule of CodeBlocks.SaveBlock. The program writes `coding/a.p` for the lone line `# filename: a.py`, and the model writes `coding/a.py`.
- CodeBlocks.WriteCodeReply: inherits the corrected filename rule of CodeBlocks.SaveBlock.
- Documents.Parse: a web backlog is parsed with the intended transforms (see Findings). The program's parse always raises AttributeError there, after the document is stored.
- Documents.Parse: reads every schema's `exclude` list as a set (see Findings). Under pydantic 2, `model_dump_json` rejects a list `exclude` with TypeError, so every schema with its own `parse` raises; Documents.ParseAsWritten models that.
- Backlog.ParseData: reads the `exclude` list at backlog_data.py:64 as a set, where the program raises TypeError after the transforms (see Documents.ParseAsWritten).
- WriteDocs.WriteDocumentRun: inherits the intended web-backlog parse of Documents.Parse. With the chat front end and a web backlog, the program raises where the model returns the parsed text.
- WriteDocs.WriteDocumentRun: inherits the set reading of `exclude` in Documents.Parse. With the chat front end, the program raises TypeError for every schema with its own `parse`, after the document is stored.
- Roles.FromDict: an explicit `null` in a team entry is read like a missing key. The program fails instead: a null role, goal or constraints fails `RoleSetting` validation (role.py:62-64, 83); a null loop count makes `range(None)` raise TypeError (role.py:206); a null reply limit or input mode reaches the agents as None (role.py:150-152). The configuration is parsed outside the model, so null and missing are not told apart.
- CodeBlocks.SaveBlocks, CodeBlocks.StoreCode, CodeBlocks.StoreCodeKeys, CodeBlocks.StoreCodeLastWins, CodeBlocks.StoreCodeAppend, CodeBlocks.SaveCodeBlocks, CodeBlocks.SaveCodeBlocksAppend, CodeBlocks.ParseCodeBlocks, CodeBlocks.ParseNewestOnly, CodeBlocks.WriteCodeRun: inherit the corrected filename rule of CodeBlocks.SaveBlock. Their contracts hold under either rule, but the filenames they store differ from the program's on a lone directive line.
- PyStr.ParseInt: accepts ASCII digits only. Python's `int()` also accepts other Unicode decimal digits, such as `３`.

## Findings

| source | as written | input that shows it | evidently intended | confidence | as-written member | corrected member |
|---|---|---|---|---|---|---|
| aipreneuros/actions/document_schema/backlog_data.py:64 | `parse` passes `exclude=["RequiredPythonPackages"]`, a list, to `model_dump_json`; so do backlog_web.py:112, sdd_data.py:112, sdd_web.py:102, both data_models.py and appgen's sdd.py and backlog.py | any data backlog whose lists hold complete pairs, e.g. all lists empty: pydantic 2's serializer raises TypeError ("`exclude` argument must be a set or dict.") | a set, `exclude={...}`, leaving the named fields out of the markdown | medium (not executed; rests on pydantic 2's serializer, outside this repository) | Documents.ParseAsWritten, Documents.ParseAsWrittenRejectsList | Documents.Parse |
| aipreneuros/actions/document_schema/backlog_web.py:104-105 | `PackageName` goes through `pretty_list` and the list `UX` through `wrap_in_backticks` | any web backlog, e.g. the default one with `UX == []`: `[].startswith` raises AttributeError | fence `PackageName` and prettify `UX`, as the data schema does with its package name and lists | high (not executed) | Backlog.ParseWeb | Backlog.ParseWebIntended |
| aipreneuros/actions/write_code.py:137 | the filename is `code[11:code.find("\n")].strip()` | `"# filename: a.py"` (no newline): `find` gives -1 and the name is `a.p` | the whole rest of the first line, `a.py` | high (not executed) | CodeBlocks.FilenameAsWritten, CodeBlocks.FilenameAsWrittenDropsLastChar | CodeBlocks.FilenameOf |
