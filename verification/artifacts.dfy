/** The shared artifact store (`CONFIG.artifacts`) and the file writes of
    `aipreneuros/utils/write_utils.py`, as lists of write intents. */
module Artifacts {
  import opened Wrappers
  import opened Dicts
  import opened Documents

  /** One file the program would write: a directory, a path below it, the
      text. */
  datatype FileWrite = FileWrite(dir: string, path: seq<string>, content: string)

  /** The artifact store. `docs` maps a document name to its document,
      `code` maps a filename (or None, for a block without a filename
      directive) to the code. `backlog` is the optional legacy entry the
      aipreneuros environment also saves; the initial store has none. */
  datatype Store = Store(
    docs: Dict<string, Document>,
    code: Dict<Option<string>, string>,
    backlog: Option<Dict<string, Document>>)

  /** `dict(docs={}, code={})`. */
  function InitialStore(): (s: Store)
    ensures s.docs.entries == map[] && s.code.entries == map[] && s.backlog.None?
  {
    Store(Empty(), Empty(), None)
  }

  /** `save_document(doc, filename, project_dir)`: one write, under
      `docs`, of the document's markdown. */
  function SaveDocument(doc: Document, filename: string, projectDir: string): (w: FileWrite)
    ensures w.dir == projectDir && w.path == ["docs", filename]
    ensures w.content == Doc2Md(doc)
  {
    FileWrite(projectDir, ["docs", filename], Doc2Md(doc))
  }

  /** `save_code(code, filename, project_dir)`: nothing is written when the
      code or the filename is missing, otherwise exactly one file. */
  function SaveCode(code: Option<string>, filename: Option<string>, projectDir: string): (w: seq<FileWrite>)
    ensures |w| <= 1
    ensures |w| == 1 <==> code.Some? && filename.Some?
    ensures |w| == 1 ==> w[0] == FileWrite(projectDir, [filename.value], code.value)
  {
    if code.None? || filename.None? then [] else [FileWrite(projectDir, [filename.value], code.value)]
  }

  /** The `save_document` call for each entry of a docs map, in key order,
      to `docs/<name>.md`. */
  function DocWrites(docs: Dict<string, Document>, dir: string): (w: seq<FileWrite>)
    ensures |w| == |docs.order|
    ensures forall i :: 0 <= i < |w| ==>
              docs.order[i] in docs.entries && w[i] == SaveDocument(docs.entries[docs.order[i]], docs.order[i] + ".md", dir)
  {
    seq(|docs.order|, i requires 0 <= i < |docs.order| =>
      assert docs.order[i] in docs.entries;
      SaveDocument(docs.entries[docs.order[i]], docs.order[i] + ".md", dir))
  }

  /** Each stored document is written exactly once, and to its own file. */
  lemma DocWritesOnePerName(docs: Dict<string, Document>, dir: string, name: string)
    requires name in docs.entries
    ensures exists i :: 0 <= i < |DocWrites(docs, dir)| &&
              DocWrites(docs, dir)[i] == FileWrite(dir, ["docs", name + ".md"], Doc2Md(docs.entries[name]))
    ensures forall i, j :: 0 <= i < j < |DocWrites(docs, dir)| ==> DocWrites(docs, dir)[i].path != DocWrites(docs, dir)[j].path
  {
    var w := DocWrites(docs, dir);
    assert name in docs.order;
    var i :| 0 <= i < |docs.order| && docs.order[i] == name;
    assert w[i] == FileWrite(dir, ["docs", name + ".md"], Doc2Md(docs.entries[name]));
    forall i, j | 0 <= i < j < |w| ensures w[i].path != w[j].path {
      SuffixCancel(docs.order[i], docs.order[j], ".md");
      assert w[i].path[1] == docs.order[i] + ".md" && w[j].path[1] == docs.order[j] + ".md";
    }
  }

  lemma SuffixCancel(a: string, b: string, s: string)
    ensures a + s == b + s ==> a == b
  {
    assert (a + s)[..|a|] == a;
    assert (b + s)[..|b|] == b;
  }

  /** The `save_code` calls for the code map from key position `i` on. */
  function CodeWritesFrom(code: Dict<Option<string>, string>, dir: string, i: nat): (w: seq<FileWrite>)
    requires i <= |code.order|
    ensures |w| <= |code.order| - i
    ensures forall k :: 0 <= k < |w| ==> |w[k].path| == 1 && w[k].dir == dir
    ensures forall k :: 0 <= k < |w| ==>
              Some(w[k].path[0]) in code.entries && w[k].content == code.entries[Some(w[k].path[0])]
    decreases |code.order| - i
  {
    if i == |code.order| then []
    else
      var k := code.order[i];
      assert k in code.entries;
      SaveCode(Some(code.entries[k]), k, dir) + CodeWritesFrom(code, dir, i + 1)
  }

  /** The `save_code` calls for every entry of a code map, in key order. */
  function CodeWrites(code: Dict<Option<string>, string>, dir: string): seq<FileWrite> {
    CodeWritesFrom(code, dir, 0)
  }

  /** Every named code file is written with its code, and the block
      without a filename is skipped by the guard. */
  lemma {:induction false} CodeWritesFromComplete(code: Dict<Option<string>, string>, dir: string, i: nat, j: nat)
    requires i <= j < |code.order| && code.order[j].Some?
    ensures code.order[j] in code.entries
    ensures FileWrite(dir, [code.order[j].value], code.entries[code.order[j]]) in CodeWritesFrom(code, dir, i)
    decreases j - i
  {
    assert code.order[j] in code.entries;
    if i < j {
      CodeWritesFromComplete(code, dir, i + 1, j);
    }
  }

  lemma CodeWritesComplete(code: Dict<Option<string>, string>, dir: string, name: string)
    requires Some(name) in code.entries
    ensures FileWrite(dir, [name], code.entries[Some(name)]) in CodeWrites(code, dir)
    ensures |CodeWrites(code, dir)| <= |code.order|
  {
    assert Some(name) in code.order;
    var j :| 0 <= j < |code.order| && code.order[j] == Some(name);
    CodeWritesFromComplete(code, dir, 0, j);
  }
}
