/** The documents the writing actions store: the two backlog schemas the
    pipeline reads fields from, and every other schema as a record of
    named JSON fields whose `parse` leaves out the fields it renders as
    diagrams. */
module Documents {
  import opened Wrappers
  import opened Json
  import opened Backlog
  import opened PyStr

  datatype Document =
    | DataBacklogDoc(data: DataBacklog)
    | WebBacklogDoc(web: WebBacklog)
    | OtherDoc(schema: string, fields: seq<(string, Value)>)

  /** `json.loads(doc.model_dump_json())`: every field, in declaration
      order. */
  function ToJson(d: Document): (v: Value)
    ensures v.Obj?
    ensures d.OtherDoc? ==> v == Obj(d.fields)
    ensures d.DataBacklogDoc? ==> v == DataJson(d.data, false)
    ensures d.WebBacklogDoc? ==> v == WebJson(d.web, Str(d.web.packageName), List(d.web.ux), false)
  {
    match d
    case DataBacklogDoc(b) => DataJson(b, false)
    case WebBacklogDoc(b) => WebJson(b, Str(b.packageName), List(b.ux), false)
    case OtherDoc(_, fields) => Obj(fields)
  }

  /** `doc2md`: the markdown of a whole document at heading depth 2. */
  function Doc2Md(d: Document): (md: string)
    ensures d.OtherDoc? ==> md == Markdown(Obj(d.fields), 2)
    ensures d.DataBacklogDoc? ==> StartsWith(md, "# " + d.data.title + "\n\n")
    ensures d.WebBacklogDoc? ==> StartsWith(md, "# " + d.web.title + "\n\n")
  {
    if !d.OtherDoc? then MarkdownTitleFirst(ToJson(d).fields, 2); Markdown(ToJson(d), 2)
    else Markdown(ToJson(d), 2)
  }

  /** Reading `.RequiredPackages`: only the web backlog has that field. */
  function RequiredPackages(d: Document): (r: Result<string>)
    ensures r.Ok? <==> d.WebBacklogDoc?
    ensures r.Ok? ==> r.value == d.web.requiredPackages
    ensures r.Err? ==> r.error == AttributeError("RequiredPackages")
  {
    if d.WebBacklogDoc? then Ok(d.web.requiredPackages) else Err(AttributeError("RequiredPackages"))
  }

  /** Reading `.RequiredPythonPackages`: only the data backlog (and
      appgen's backlog, the same record) has that field. */
  function RequiredPythonPackages(d: Document): (r: Result<string>)
    ensures r.Ok? <==> d.DataBacklogDoc?
    ensures r.Ok? ==> r.value == d.data.requiredPythonPackages
    ensures r.Err? ==> r.error == AttributeError("RequiredPythonPackages")
  {
    if d.DataBacklogDoc? then Ok(d.data.requiredPythonPackages) else Err(AttributeError("RequiredPythonPackages"))
  }

  /** The fields a schema's own `parse` leaves out of its markdown: the
      diagrams it renders to images instead and, for the data model, the
      fact and dimension tables. The base `parse` (the requirements
      schemas) leaves out nothing. */
  function ParseExcluded(schema: string): (x: set<string>)
    ensures "Title" !in x
  {
    if schema == "SDDDataSchema" || schema == "SDDSchema" then {"ClassDiagrams", "ProgramFlow"}
    else if schema == "SDDWebSchema" then {"Architecture", "ClassDiagrams", "SequenceFlow", "DataDiagram", "UIMocks"}
    else if schema == "DataModelSchema" then {"ERDiagram", "FactTables", "DimensionTables"}
    else {}
  }

  /** `parse()` of a document, as the chat front end calls it on a copy:
      the backlogs transform their fields first, every other schema renders
      the fields its `parse` does not exclude. The result is the parsed text
      and the transformed copy. The web backlog uses the intended transforms
      (see `Backlog.ParseWeb` for the code as written, which always raises),
      and every `exclude` list is read as the set it is meant to be (see
      `ParseAsWritten`). */
  function Parse(d: Document): (r: Result<(string, Document)>)
    ensures d.OtherDoc? ==> r.Ok? && r.value.1 == d
    ensures d.WebBacklogDoc? ==> (r.Ok? <==> TransformWebIntended(d.web).Ok?)
    ensures r.Ok? && d.WebBacklogDoc? ==>
              r.value.1 == WebBacklogDoc(TransformWebIntended(d.web).value)
              && r.value.0 == ParseWebIntended(d.web).value
    ensures d.DataBacklogDoc? ==> (r.Ok? <==> TransformData(d.data).Ok?)
    ensures r.Ok? && d.DataBacklogDoc? ==>
              r.value.1 == DataBacklogDoc(TransformData(d.data).value)
              && r.value.0 == ParseData(d.data).value
  {
    match d
    case OtherDoc(schema, fields) => Ok((Markdown(Obj(Omit(fields, ParseExcluded(schema))), 2), d))
    case WebBacklogDoc(b) =>
      var t :- TransformWebIntended(b);
      Ok((Markdown(WebJson(t, Str(t.packageName), List(t.ux), true), 2), WebBacklogDoc(t)))
    case DataBacklogDoc(b) =>
      var t :- TransformData(b);
      Ok((Markdown(DataJson(t, true), 2), DataBacklogDoc(t)))
  }

  /** A schema without its own `parse` (the requirements documents)
      parses to exactly its stored markdown. */
  lemma ParseBaseSchema(schema: string, fields: seq<(string, Value)>)
    requires ParseExcluded(schema) == {}
    ensures Parse(OtherDoc(schema, fields)) == Ok((Doc2Md(OtherDoc(schema, fields)), OtherDoc(schema, fields)))
  {
    OmitNothing(fields);
  }

  /** A schema's own `parse` renders the other fields in order and ignores
      the excluded ones: inserting an excluded field anywhere leaves the
      parsed text as it was, and each kept field contributes its section. */
  lemma ParseIgnoresExcluded(schema: string, a: seq<(string, Value)>, key: string, value: Value, b: seq<(string, Value)>)
    ensures key in ParseExcluded(schema) ==>
              Parse(OtherDoc(schema, a + [(key, value)] + b)).value.0 == Parse(OtherDoc(schema, a + b)).value.0
    ensures key !in ParseExcluded(schema) ==>
              Parse(OtherDoc(schema, a + [(key, value)] + b)).value.0 ==
                Parse(OtherDoc(schema, a)).value.0 + Section(key, value, 2) + Parse(OtherDoc(schema, b)).value.0
  {
    var x := ParseExcluded(schema);
    OmitAppend(a + [(key, value)], b, x);
    OmitAppend(a, [(key, value)], x);
    OmitAppend(a, b, x);
    assert Omit([(key, value)], x) == (if key in x then [] else [(key, value)]);
    if key in x {
      assert Omit(a, x) + [] == Omit(a, x);
    } else {
      MarkdownOfConcat(Omit(a, x) + [(key, value)], Omit(b, x), 2);
      MarkdownOfConcat(Omit(a, x), [(key, value)], 2);
      MarkdownOfSmallObjects(key, value, 2);
    }
  }

  /** The TypeError pydantic 2's serializer raises for an `exclude` that is
      neither a set nor a dict. */
  const ListExcludeError := TypeError("`exclude` argument must be a set or dict.")

  /** Whether a document's schema overrides `parse`: both backlogs, and
      every schema that leaves fields out of its markdown. */
  predicate OwnParse(d: Document) {
    !d.OtherDoc? || ParseExcluded(d.schema) != {}
  }

  /** `parse()` as written: every overriding `parse` hands its `exclude` to
      `model_dump_json` as a list, which the serializer rejects. The
      backlogs transform their fields first, so a failing transform raises
      its own error before that; the base `parse` is unaffected. */
  function ParseAsWritten(d: Document): (r: Result<(string, Document)>)
    ensures !OwnParse(d) ==> r == Parse(d)
    ensures OwnParse(d) ==> r.Err?
    ensures d.OtherDoc? && OwnParse(d) ==> r == Err(ListExcludeError)
    ensures d.DataBacklogDoc? ==> (r == Err(ListExcludeError) <==> TransformData(d.data).Ok?)
    ensures d.DataBacklogDoc? && TransformData(d.data).Err? ==> r == Err(IndexError)
    ensures d.WebBacklogDoc? ==> r == Err(AttributeError("startswith"))
  {
    match d
    case OtherDoc(schema, _) => if ParseExcluded(schema) == {} then Parse(d) else Err(ListExcludeError)
    case WebBacklogDoc(b) => Err(ParseWeb(b).error)
    case DataBacklogDoc(b) =>
      var _ :- TransformData(b);
      Err(ListExcludeError)
  }

  /** The discrepancy: wherever a schema with its own `parse` parses under
      the intended reading, the code as written raises instead. */
  lemma ParseAsWrittenRejectsList(d: Document)
    requires OwnParse(d) && Parse(d).Ok?
    ensures ParseAsWritten(d).Err?
    ensures !d.WebBacklogDoc? ==> ParseAsWritten(d) == Err(ListExcludeError)
  {
  }
}
