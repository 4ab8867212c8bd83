/** The pair-programming reply of `aipreneuros/actions/write_code.py`
    (and its copy in `aipreneuros/tasks/implementation.py`): the code
    blocks of the newest message are saved to the artifact store and to
    files, test files and shell scripts are executed and their results
    appended to the conversation, and the model is asked for the next
    reply.

    `extract_code` and `execute_code` are oracles; the results of
    `execute_code` enter the model as the text they are formatted to. */
module CodeBlocks {
  import opened Wrappers
  import opened PyStr
  import opened Dicts
  import opened Artifacts
  import opened Chat

  /** The language `extract_code` reports for text without a code block. */
  const Unknown := "unknown"
  /** The directive that names a code block's file on its first line. */
  const Directive := "# filename: "
  /** The fixed directory code blocks are saved to and test files run in. */
  const CodingDir := "/Users/selinkayay/datanomous/aipreneuros/coding"

  /** One `(lang, code)` pair of `extract_code`. */
  datatype Block = Block(lang: string, code: string)

  /** One `(lang, filename, code)` triple of `_save_code_blocks`. */
  datatype Saved = Saved(lang: string, filename: Option<string>, code: string)

  /** `extract_code(text)`. */
  type Extractor = string -> seq<Block>

  /** The filename rule as written: `code[11:code.find("\n")].strip()`.
      When the block has no newline, `find` gives -1 and the slice stops
      one character before the end. */
  function FilenameAsWritten(code: string): (r: Option<string>)
    ensures r.Some? <==> StartsWith(code, Directive)
  {
    if StartsWith(code, Directive) then Some(Strip(Slice(code, 11, Find(code, "\n"))))
    else None
  }

  /** The filename rule as intended: the rest of the first line, stripped. */
  function FilenameOf(code: string): (r: Option<string>)
    ensures r.Some? <==> StartsWith(code, Directive)
  {
    if StartsWith(code, Directive) then
      var nl := Find(code, "\n");
      Some(Strip(Slice(code, 11, if nl < 0 then |code| else nl)))
    else None
  }

  predicate NoNewline(s: string) {
    forall i :: 0 <= i < |s| ==> s[i] != '\n'
  }

  lemma NoNewlineFree(s: string)
    requires NoNewline(s)
    ensures !Contains(s, "\n")
  {
    forall j ensures !OccursAt(s, "\n", j) {
      if 0 <= j && j + 1 <= |s| {
        assert s[j..j + 1][0] == s[j];
      }
    }
  }

  /** The directive line without its newline: it starts with the
      directive, holds no newline, and from index 11 on it is a space and
      the filename. */
  lemma DirectiveLine(f: string)
    requires NoNewline(f)
    ensures StartsWith(Directive + f, Directive)
    ensures !Contains(Directive + f, "\n")
    ensures (Directive + f)[11..] == " " + f
  {
    var head := Directive + f;
    assert head[..|Directive|] == Directive;
    assert NoNewline(head) by {
      forall i | 0 <= i < |head| ensures head[i] != '\n' {
        if i >= |Directive| {
          assert head[i] == f[i - |Directive|];
        }
      }
    }
    NoNewlineFree(head);
  }

  /** A first line `# filename: f` names the file `f` stripped, whatever
      follows the line, and both rules agree on it. */
  lemma FilenameOfDirective(f: string, rest: string)
    requires NoNewline(f)
    ensures FilenameOf(Directive + f + "\n" + rest) == Some(Strip(f))
    ensures FilenameAsWritten(Directive + f + "\n" + rest) == Some(Strip(f))
  {
    var head := Directive + f;
    var code := head + "\n" + rest;
    DirectiveLine(f);
    assert Find(code, "\n") == |head| by {
      assert Borderless("\n");
      FindAfterClean(head, "\n", rest);
    }
    assert StartsWith(code, Directive) by {
      assert code[..|Directive|] == head[..|Directive|];
    }
    assert Slice(code, 11, |head|) == " " + f by {
      assert code[11..|head|] == head[11..];
    }
    StripLeadingSpace(f);
  }

  /** A block that is only the directive line: the intended rule names the
      file `f`, the rule as written loses its last character. */
  lemma FilenameAsWrittenDropsLastChar(f: string)
    requires NoNewline(f) && |f| > 0
    ensures FilenameOf(Directive + f) == Some(Strip(f))
    ensures FilenameAsWritten(Directive + f) == Some(Strip(f[..|f| - 1]))
  {
    var code := Directive + f;
    DirectiveLine(f);
    assert Find(code, "\n") == -1;
    assert Slice(code, 11, |code|) == " " + f;
    assert Slice(code, 11, -1) == " " + f[..|f| - 1] by {
      assert code[11..|code| - 1] == (" " + f)[..|f|];
    }
    StripLeadingSpace(f);
    StripLeadingSpace(f[..|f| - 1]);
  }

  /** The triple `_save_code_blocks` records for a block. The filename
      follows the intended rule, which agrees with the rule as written on
      every block that holds a newline. */
  function SaveBlock(b: Block): (s: Saved)
    ensures s.lang == b.lang && s.code == b.code
    ensures s.filename.Some? <==> StartsWith(b.code, Directive)
    ensures Find(b.code, "\n") >= 0 ==> s.filename == FilenameAsWritten(b.code)
  {
    Saved(b.lang, FilenameOf(b.code), b.code)
  }

  function SaveBlocks(blocks: seq<Block>): (r: seq<Saved>)
    ensures |r| == |blocks|
    ensures forall i :: 0 <= i < |blocks| ==> r[i] == SaveBlock(blocks[i])
  {
    seq(|blocks|, i requires 0 <= i < |blocks| => SaveBlock(blocks[i]))
  }

  /** The code map and the files after storing saved blocks in order. */
  datatype Stored = Stored(code: Dict<Option<string>, string>, writes: seq<FileWrite>)

  /** For each saved block in order, `code[filename] = code` (a block
      without a directive is stored under None) and `save_code`. */
  function StoreCode(saved: seq<Saved>, code: Dict<Option<string>, string>): (r: Stored)
    ensures |r.writes| <= |saved|
    decreases |saved|
  {
    if |saved| == 0 then Stored(code, [])
    else
      var s := saved[|saved| - 1];
      var prev := StoreCode(saved[..|saved| - 1], code);
      Stored(Set(prev.code, s.filename, s.code), prev.writes + SaveCode(Some(s.code), s.filename, CodingDir))
  }

  /** The stored keys are the old ones and the blocks' filenames. */
  lemma {:induction false} StoreCodeKeys(saved: seq<Saved>, code: Dict<Option<string>, string>)
    ensures forall k :: k in StoreCode(saved, code).code.entries <==>
              k in code.entries || exists i :: 0 <= i < |saved| && saved[i].filename == k
    decreases |saved|
  {
    if |saved| > 0 {
      var front := saved[..|saved| - 1];
      StoreCodeKeys(front, code);
      assert forall i :: 0 <= i < |front| ==> front[i] == saved[i];
    }
  }

  /** The last block for a filename wins; a filename no block names keeps
      its old code. */
  lemma {:induction false} StoreCodeLastWins(saved: seq<Saved>, code: Dict<Option<string>, string>)
    ensures forall i :: 0 <= i < |saved| && (forall j :: i < j < |saved| ==> saved[j].filename != saved[i].filename) ==>
              saved[i].filename in StoreCode(saved, code).code.entries &&
              StoreCode(saved, code).code.entries[saved[i].filename] == saved[i].code
    ensures forall k :: k in code.entries && (forall i :: 0 <= i < |saved| ==> saved[i].filename != k) ==>
              k in StoreCode(saved, code).code.entries && StoreCode(saved, code).code.entries[k] == code.entries[k]
    decreases |saved|
  {
    if |saved| > 0 {
      var front := saved[..|saved| - 1];
      var last := saved[|saved| - 1];
      StoreCodeLastWins(front, code);
      assert forall i :: 0 <= i < |front| ==> front[i] == saved[i];
      var prev := StoreCode(front, code).code.entries;
      assert StoreCode(saved, code).code.entries == prev[last.filename := last.code];
      forall i | 0 <= i < |saved| - 1 && (forall j :: i < j < |saved| ==> saved[j].filename != saved[i].filename)
        ensures saved[i].filename in prev && prev[saved[i].filename] == saved[i].code
      {
        assert forall j :: i < j < |front| ==> front[j].filename != front[i].filename;
      }
    }
  }

  /** Every block with a filename is written to that file, and every write
      is one of the blocks. */
  lemma {:induction false} StoreCodeWrites(saved: seq<Saved>, code: Dict<Option<string>, string>)
    ensures forall i :: 0 <= i < |saved| && saved[i].filename.Some? ==>
              FileWrite(CodingDir, [saved[i].filename.value], saved[i].code) in StoreCode(saved, code).writes
    ensures forall w :: w in StoreCode(saved, code).writes ==>
              exists i :: 0 <= i < |saved| && saved[i].filename.Some? &&
                w == FileWrite(CodingDir, [saved[i].filename.value], saved[i].code)
    decreases |saved|
  {
    if |saved| > 0 {
      var front := saved[..|saved| - 1];
      StoreCodeWrites(front, code);
      assert forall i :: 0 <= i < |front| ==> front[i] == saved[i];
    }
  }

  lemma StoreCodeUnfold(saved: seq<Saved>, code: Dict<Option<string>, string>)
    requires |saved| > 0
    ensures var s := saved[|saved| - 1];
            var prev := StoreCode(saved[..|saved| - 1], code);
            StoreCode(saved, code) == Stored(Set(prev.code, s.filename, s.code), prev.writes + SaveCode(Some(s.code), s.filename, CodingDir))
  {
  }

  /** Storing `a + b` is storing `a` and then storing `b` into the result. */
  lemma {:induction false} StoreCodeAppend(a: seq<Saved>, b: seq<Saved>, code: Dict<Option<string>, string>)
    ensures StoreCode(a + b, code) ==
              Stored(StoreCode(b, StoreCode(a, code).code).code, StoreCode(a, code).writes + StoreCode(b, StoreCode(a, code).code).writes)
    decreases |b|
  {
    if |b| == 0 {
      assert a + b == a;
    } else {
      var n := |b| - 1;
      SnocConcat(a, b);
      StoreCodeAppend(a, b[..n], code);
      StoreCodeAppendStep(a, b[..n], b[n], code);
    }
  }

  /** `b` is its front and its last element, and so is `a + b` with `a`
      in front. */
  lemma SnocConcat<T>(a: seq<T>, b: seq<T>)
    requires |b| > 0
    ensures b[..|b| - 1] + [b[|b| - 1]] == b
    ensures (a + b[..|b| - 1]) + [b[|b| - 1]] == a + b
  {
  }

  /** The step of `StoreCodeAppend`: one more block at the end of `b`. */
  lemma StoreCodeAppendStep(a: seq<Saved>, b: seq<Saved>, x: Saved, code: Dict<Option<string>, string>)
    requires var p := StoreCode(a, code);
             var q := StoreCode(b, p.code);
             StoreCode(a + b, code) == Stored(q.code, p.writes + q.writes)
    ensures StoreCode((a + b) + [x], code) ==
              Stored(StoreCode(b + [x], StoreCode(a, code).code).code,
                     StoreCode(a, code).writes + StoreCode(b + [x], StoreCode(a, code).code).writes)
  {
    var p := StoreCode(a, code);
    var q := StoreCode(b, p.code);
    var last := SaveCode(Some(x.code), x.filename, CodingDir);
    StoreCodeSnoc(a + b, x, code);
    StoreCodeSnoc(b, x, p.code);
    assert (p.writes + q.writes) + last == p.writes + (q.writes + last);
  }

  /** Storing one more block after `saved`. */
  lemma StoreCodeSnoc(saved: seq<Saved>, x: Saved, code: Dict<Option<string>, string>)
    ensures StoreCode(saved + [x], code) ==
              Stored(Set(StoreCode(saved, code).code, x.filename, x.code),
                     StoreCode(saved, code).writes + SaveCode(Some(x.code), x.filename, CodingDir))
  {
    assert (saved + [x])[..|saved|] == saved;
  }

  /** What `_save_code_blocks` leaves behind: the triples, the code map of
      the store and the files written. */
  datatype Saving = Saving(saved: seq<Saved>, code: Dict<Option<string>, string>, writes: seq<FileWrite>)

  /** `_save_code_blocks(blocks)`. */
  function SaveCodeBlocks(blocks: seq<Block>, code: Dict<Option<string>, string>): (r: Saving)
    ensures r.saved == SaveBlocks(blocks)
    ensures Stored(r.code, r.writes) == StoreCode(SaveBlocks(blocks), code)
  {
    var saved := SaveBlocks(blocks);
    var stored := StoreCode(saved, code);
    Saving(saved, stored.code, stored.writes)
  }

  lemma SaveCodeBlocksAppend(a: seq<Block>, b: seq<Block>, code: Dict<Option<string>, string>)
    ensures var p := SaveCodeBlocks(a, code);
            var q := SaveCodeBlocks(b, p.code);
            SaveCodeBlocks(a + b, code) == Saving(p.saved + q.saved, q.code, p.writes + q.writes)
  {
    assert SaveBlocks(a + b) == SaveBlocks(a) + SaveBlocks(b);
    StoreCodeAppend(SaveBlocks(a), SaveBlocks(b), code);
  }

  /** The messages `_parse_code_blocks` looks at, newest first: the last
      `min(len(messages), last_n)` of them (none for a negative `last_n`). */
  function Newest<T>(messages: seq<T>, lastN: int): (r: seq<T>)
    ensures |r| == if lastN < 0 then 0 else if lastN < |messages| then lastN else |messages|
    ensures forall i :: 0 <= i < |r| ==> r[i] == messages[|messages| - 1 - i]
  {
    var n := if lastN < 0 then 0 else if lastN < |messages| then lastN else |messages|;
    seq(n, i requires 0 <= i < n => messages[|messages| - 1 - i])
  }

  /** Messages older than the newest `last_n` are never looked at. */
  lemma NewestIgnoresOlder<T>(older: seq<T>, recent: seq<T>, lastN: int)
    requires lastN <= |recent|
    ensures Newest(older + recent, lastN) == Newest(recent, lastN)
  {
    var r := Newest(older + recent, lastN);
    forall i | 0 <= i < |r| ensures r[i] == Newest(recent, lastN)[i] {
      assert (older + recent)[|older + recent| - 1 - i] == recent[|recent| - 1 - i];
    }
  }

  /** The blocks a message contributes: none when its content is empty or
      when `extract_code` finds only the single block of unknown language
      that stands for plain text. */
  function BlocksOf(m: Message, extract: Extractor): (r: seq<Block>)
    ensures m.content == "" ==> r == []
    ensures |extract(m.content)| == 1 && extract(m.content)[0].lang == Unknown ==> r == []
    ensures m.content != "" && !(|extract(m.content)| == 1 && extract(m.content)[0].lang == Unknown) ==>
              r == extract(m.content)
  {
    if m.content == "" then []
    else
      var blocks := extract(m.content);
      if |blocks| == 1 && blocks[0].lang == Unknown then [] else blocks
  }

  /** The blocks of a list of messages, in list order. */
  function AllBlocks(messages: seq<Message>, extract: Extractor): seq<Block>
    decreases |messages|
  {
    if |messages| == 0 then []
    else AllBlocks(messages[..|messages| - 1], extract) + BlocksOf(messages[|messages| - 1], extract)
  }

  /** `_parse_code_blocks(messages, last_n)`: walk the newest `last_n`
      messages from the newest back, saving the blocks of each. The result
      is the saving of all their blocks, newest message first. */
  method ParseCodeBlocks(messages: seq<Message>, lastN: int, extract: Extractor, code: Dict<Option<string>, string>)
    returns (r: Saving)
    ensures r == SaveCodeBlocks(AllBlocks(Newest(messages, lastN), extract), code)
  {
    var newest := Newest(messages, lastN);
    var count := if lastN < 0 then 0 else if lastN < |messages| then lastN else |messages|;
    r := Saving([], code, []);
    assert newest[..0] == [];
    var i := 0;
    while i < count
      invariant 0 <= i <= count == |newest|
      invariant r == SaveCodeBlocks(AllBlocks(newest[..i], extract), code)
    {
      var message := messages[|messages| - (i + 1)];
      assert message == newest[i];
      var more := SaveCodeBlocks(BlocksOf(message, extract), r.code);
      r := Saving(r.saved + more.saved, more.code, r.writes + more.writes);
      assert r == SaveCodeBlocks(AllBlocks(newest[..i + 1], extract), code) by {
        ParseStep(newest, i, extract, code);
      }
      i := i + 1;
    }
    assert newest[..count] == newest;
  }

  /** One more message saved: its blocks after those of the earlier ones. */
  lemma ParseStep(newest: seq<Message>, i: nat, extract: Extractor, code: Dict<Option<string>, string>)
    requires i < |newest|
    ensures var p := SaveCodeBlocks(AllBlocks(newest[..i], extract), code);
            var q := SaveCodeBlocks(BlocksOf(newest[i], extract), p.code);
            SaveCodeBlocks(AllBlocks(newest[..i + 1], extract), code) == Saving(p.saved + q.saved, q.code, p.writes + q.writes)
  {
    SaveCodeBlocksAppend(AllBlocks(newest[..i], extract), BlocksOf(newest[i], extract), code);
    AllBlocksSnoc(newest, i, extract);
  }

  lemma AllBlocksSnoc(messages: seq<Message>, i: nat, extract: Extractor)
    requires i < |messages|
    ensures AllBlocks(messages[..i + 1], extract) == AllBlocks(messages[..i], extract) + BlocksOf(messages[i], extract)
  {
    assert messages[..i + 1][..i] == messages[..i];
  }

  /** With the default `last_n = 1` only the newest message's blocks are
      saved. */
  lemma ParseNewestOnly(messages: seq<Message>, extract: Extractor)
    requires |messages| > 0
    ensures AllBlocks(Newest(messages, 1), extract) == BlocksOf(messages[|messages| - 1], extract)
  {
    var n := Newest(messages, 1);
    assert n[..0] == [];
  }

  /** Which of the two copies of the reply: the action executes `sh` and
      `bash` blocks, the implementation task only `sh` ones. */
  datatype Variant = WriteCodeAction | ImplementationTask

  predicate IsShell(v: Variant, lang: string) {
    lang == "sh" || (v == WriteCodeAction && lang == "bash")
  }

  /** `execute_code(filename=f, work_dir=CodingDir)`, as text. */
  type FileRunner = string -> string
  /** `execute_code(code, lang=lang)`, as text. */
  type ScriptRunner = (string, string) -> string

  /** A python block without a filename: `filename.startswith` raises. */
  predicate Unnamed(s: Saved) {
    s.lang == "python" && s.filename.None?
  }

  /** The blocks that are executed: python test files and shell scripts. */
  predicate Executes(v: Variant, s: Saved) {
    if s.lang == "python" then s.filename.Some? && StartsWith(s.filename.value, "test_")
    else IsShell(v, s.lang)
  }

  /** The message one block adds to the conversation, if any. */
  function ExecMessage(v: Variant, s: Saved, runFile: FileRunner, runScript: ScriptRunner): (r: Result<Option<Message>>)
    ensures r.Err? <==> Unnamed(s)
    ensures r.Err? ==> r.error == AttributeError("startswith")
    ensures r.Ok? ==> (r.value.Some? <==> Executes(v, s))
    ensures r.Ok? && r.value.Some? ==> r.value.value.role == "user" && r.value.value.context.None?
  {
    if s.lang == "python" then
      if s.filename.None? then Err(AttributeError("startswith"))
      else if StartsWith(s.filename.value, "test_") then
        var f := s.filename.value;
        Ok(Some(UserMessage("Executed file " + f + " with results: " + runFile(f))))
      else Ok(None)
    else if IsShell(v, s.lang) then
      Ok(Some(UserMessage("Executed the shell script with results: " + runScript(s.code, s.lang))))
    else Ok(None)
  }

  /** The conversation after the execution loop, and the exception that
      stopped it, if any. */
  datatype Run = Run(messages: seq<Message>, error: Option<Error>)

  /** The execution loop over the saved blocks: the conversation only
      grows, by user messages, one per executed block; the first unnamed
      python block stops the loop with an AttributeError. */
  function RunBlocks(v: Variant, blocks: seq<Saved>, messages: seq<Message>, runFile: FileRunner, runScript: ScriptRunner): (r: Run)
    ensures messages <= r.messages
    ensures |r.messages| <= |messages| + |blocks|
    ensures forall k :: |messages| <= k < |r.messages| ==> r.messages[k].role == "user" && r.messages[k].context.None?
    ensures r.error.None? <==> forall i :: 0 <= i < |blocks| ==> !Unnamed(blocks[i])
    ensures r.error.Some? ==> r.error.value == AttributeError("startswith")
    ensures r.error.None? ==> (|r.messages| == |messages| <==> forall i :: 0 <= i < |blocks| ==> !Executes(v, blocks[i]))
    decreases |blocks|
  {
    if |blocks| == 0 then Run(messages, None)
    else
      match ExecMessage(v, blocks[0], runFile, runScript)
      case Err(e) => Run(messages, Some(e))
      case Ok(None) =>
        var r := RunBlocks(v, blocks[1..], messages, runFile, runScript);
        assert forall i :: 1 <= i < |blocks| ==> blocks[1..][i - 1] == blocks[i];
        r
      case Ok(Some(m)) =>
        var r := RunBlocks(v, blocks[1..], messages + [m], runFile, runScript);
        assert forall i :: 1 <= i < |blocks| ==> blocks[1..][i - 1] == blocks[i];
        assert (messages + [m])[|messages|] == m;
        r
  }

  /** A `bash` block is run by the action and skipped by the task. */
  lemma BashPolicy(code: string, messages: seq<Message>, runFile: FileRunner, runScript: ScriptRunner)
    ensures |RunBlocks(WriteCodeAction, [Saved("bash", None, code)], messages, runFile, runScript).messages| == |messages| + 1
    ensures RunBlocks(ImplementationTask, [Saved("bash", None, code)], messages, runFile, runScript) == Run(messages, None)
  {
  }

  /** What one `_write_code` reply leaves behind besides its return value:
      the conversation, the code map of the store, the files written and
      the running cost. */
  datatype ReplyState = ReplyState(messages: seq<Message>, code: Dict<Option<string>, string>, writes: seq<FileWrite>, total: real)

  /** `_write_code(recipient, messages, ...)`. Without a client nothing
      happens and the reply is `(False, None)`. Otherwise the newest
      message's blocks are saved, the executable ones run, and the system
      messages plus the whole conversation are sent; the reply is
      `(True, text)`. An exception leaves what happened before it in
      place. */
  method WriteCodeReply(v: Variant, client: Option<Client>, system: seq<Message>, messages: seq<Message>,
                        extract: Extractor, runFile: FileRunner, runScript: ScriptRunner,
                        code: Dict<Option<string>, string>, total: real)
    returns (reply: Result<(bool, Option<string>)>, after: ReplyState)
    ensures client.None? ==> reply == Ok((false, None)) && after == ReplyState(messages, code, [], total)
    ensures client.Some? && |messages| > 0 ==>
              var saving := SaveCodeBlocks(BlocksOf(messages[|messages| - 1], extract), code);
              after.code == saving.code && after.writes == saving.writes
    ensures client.Some? && |messages| == 0 ==> reply == Err(IndexError) && after == ReplyState(messages, code, [], total)
    ensures reply.Ok? && client.Some? ==>
              var run := RunBlocks(v, SaveCodeBlocks(BlocksOf(messages[|messages| - 1], extract), code).saved, messages, runFile, runScript);
              var asked := Ask(client.value, run.messages, Framing(system, true, []), total);
              run.error.None? && asked.Ok? &&
              reply.value == (true, Some(asked.value.reply)) && after.messages == asked.value.messages && after.total == asked.value.total
    ensures reply.Err? && client.Some? && |messages| > 0 ==>
              var run := RunBlocks(v, SaveCodeBlocks(BlocksOf(messages[|messages| - 1], extract), code).saved, messages, runFile, runScript);
              run.error.Some? && reply.error == run.error.value && after.messages == run.messages && after.total == total
  {
    if client.None? {
      return Ok((false, None)), ReplyState(messages, code, [], total);
    }
    if |messages| == 0 {
      // Nothing to parse; `messages[-1]` then raises.
      return Err(IndexError), ReplyState(messages, code, [], total);
    }
    var saving := ParseCodeBlocks(messages, 1, extract, code);
    ParseNewestOnly(messages, extract);
    var run := RunBlocks(v, saving.saved, messages, runFile, runScript);
    if run.error.Some? {
      return Err(run.error.value), ReplyState(run.messages, saving.code, saving.writes, total);
    }
    var asked := Ask(client.value, run.messages, Framing(system, true, []), total);
    assert asked.Ok?;
    return Ok((true, Some(asked.value.reply))), ReplyState(asked.value.messages, saving.code, saving.writes, asked.value.total);
  }

  /** `WriteCode._run(messages=...)`: the oldest message of the
      conversation opens a fresh pair-programming chat (an oracle) and the
      last reply of that chat is the result. */
  function WriteCodeRun(messages: seq<Message>, chat: Message -> string): (r: Result<string>)
    ensures r.Err? <==> |messages| == 0
    ensures r.Err? ==> r.error == IndexError
  {
    if |messages| == 0 then Err(IndexError) else Ok(chat(messages[0]))
  }

  /** Only the oldest message matters: later messages do not change the
      chat that is started. */
  lemma WriteCodeRunOldestOnly(first: Message, later: seq<Message>, chat: Message -> string)
    ensures WriteCodeRun([first] + later, chat) == WriteCodeRun([first], chat)
    ensures WriteCodeRun([first], chat) == Ok(chat(first))
  {
  }
}
