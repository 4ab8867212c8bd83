/** The document-writing actions of `aipreneuros/actions/write_document.py`:
    ask the model to fill in a schema's format example, validate the reply
    against the schema, store the document in the artifact store and
    return its markdown.

    The formatted prompt (`document_prompt_template.format(format_example=
    schema.get_format_example())`) is an input, and `model_validate_json`
    is an oracle that either gives a document or raises ValidationError. */
module WriteDocs {
  import opened Wrappers
  import opened Dicts
  import opened Documents
  import opened Chat

  /** A document-writing action: its name and description, the schema it
      validates against and the key it stores the document under. */
  datatype DocAction = DocAction(name: string, description: string, schema: string, documentName: string)

  /** `document_schema.model_validate_json(text)`. */
  type Validator = string -> Result<Document>

  /** What `_run` returns: the markdown text, or with the chat front end
      the markdown and the parsed document text. */
  datatype Returned = Text(markdown: string) | Chainlit(content: string, parsedDoc: string)

  /** What `_run` leaves behind besides its return value. */
  datatype DocState = DocState(messages: seq<Message>, docs: Dict<string, Document>, total: real)

  /** `WriteDocument._run(client, messages, system_message)`. The request
      is the system messages, the conversation and the prompt as an
      assistant message. A reply that does not validate raises after the
      cost is counted and before anything is stored; otherwise the
      document is stored under the action's key. With the chat front end,
      `parse` runs on a copy, so the stored document is the validated one
      while the returned content is the markdown of the parsed copy; a
      failing `parse` raises after the document is stored. */
  function WriteDocumentRun(a: DocAction, client: Client, system: seq<Message>, messages: seq<Message>,
                            prompt: string, validate: Validator, useChainlit: bool,
                            docs: Dict<string, Document>, total: real): (r: (Result<Returned>, DocState))
    ensures |messages| == 0 ==> r == (Err(IndexError), DocState(messages, docs, total))
    ensures |messages| > 0 ==>
              var asked := Ask(client, messages, Framing(system, true, [AssistantMessage(prompt)]), total).value;
              r.1.messages == asked.messages && r.1.total == asked.total &&
              (validate(asked.reply).Err? ==> r == (Err(validate(asked.reply).error), DocState(asked.messages, docs, asked.total))) &&
              (validate(asked.reply).Ok? ==>
                 r.1.docs == Set(docs, a.documentName, validate(asked.reply).value) &&
                 (r.0.Err? <==> useChainlit && Parse(validate(asked.reply).value).Err?))
    ensures r.0.Ok? && !useChainlit ==>
              a.documentName in r.1.docs.entries && r.0.value == Text(Doc2Md(r.1.docs.entries[a.documentName]))
    ensures r.0.Ok? && useChainlit ==>
              a.documentName in r.1.docs.entries &&
              var parsed := Parse(r.1.docs.entries[a.documentName]);
              parsed.Ok? && r.0.value == Chainlit(Doc2Md(parsed.value.1), parsed.value.0)
  {
    match Ask(client, messages, Framing(system, true, [AssistantMessage(prompt)]), total)
    case Err(e) => (Err(e), DocState(messages, docs, total))
    case Ok(asked) =>
      match validate(asked.reply)
      case Err(e) => (Err(e), DocState(asked.messages, docs, asked.total))
      case Ok(content) =>
        var stored := DocState(asked.messages, Set(docs, a.documentName, content), asked.total);
        if useChainlit then
          match Parse(content)
          case Err(e) => (Err(e), stored)
          case Ok((text, copy)) => (Ok(Chainlit(Doc2Md(copy), text)), stored)
        else (Ok(Text(Doc2Md(content))), stored)
  }

  /** Only the action's own key changes in the store, whatever happens. */
  lemma WriteDocumentFrame(a: DocAction, client: Client, system: seq<Message>, messages: seq<Message>,
                           prompt: string, validate: Validator, useChainlit: bool,
                           docs: Dict<string, Document>, total: real, k: string)
    requires k != a.documentName
    ensures var after := WriteDocumentRun(a, client, system, messages, prompt, validate, useChainlit, docs, total).1.docs;
            (k in after.entries <==> k in docs.entries) &&
            (k in docs.entries ==> after.entries[k] == docs.entries[k])
  {
    var r := WriteDocumentRun(a, client, system, messages, prompt, validate, useChainlit, docs, total);
    if |messages| > 0 {
      var asked := Ask(client, messages, Framing(system, true, [AssistantMessage(prompt)]), total).value;
      var v := validate(asked.reply);
      if v.Ok? {
        assert r.1.docs.entries == docs.entries[a.documentName := v.value];
      } else {
        assert r.1.docs == docs;
      }
    }
  }

  /** Writing the same document twice keeps only the second version. */
  lemma WriteDocumentTwice(a: DocAction, client: Client, system: seq<Message>, m1: seq<Message>, m2: seq<Message>,
                           prompt: string, validate: Validator, useChainlit: bool,
                           docs: Dict<string, Document>, total: real)
    requires |m1| > 0 && |m2| > 0
    requires validate(client(m1[|m1| - 1].context, Frame(Framing(system, true, [AssistantMessage(prompt)]), PopContext(m1).value.1)).text).Ok?
    requires validate(client(m2[|m2| - 1].context, Frame(Framing(system, true, [AssistantMessage(prompt)]), PopContext(m2).value.1)).text).Ok?
    ensures var first := WriteDocumentRun(a, client, system, m1, prompt, validate, useChainlit, docs, total).1;
            var second := WriteDocumentRun(a, client, system, m2, prompt, validate, useChainlit, first.docs, first.total).1;
            second.docs.entries[a.documentName] ==
              WriteDocumentRun(a, client, system, m2, prompt, validate, useChainlit, docs, total).1.docs.entries[a.documentName]
  {
  }

  /** The cost only grows, whether or not the reply validates. */
  lemma WriteDocumentCost(a: DocAction, client: Client, system: seq<Message>, messages: seq<Message>,
                          prompt: string, validate: Validator, useChainlit: bool,
                          docs: Dict<string, Document>, total: real)
    ensures WriteDocumentRun(a, client, system, messages, prompt, validate, useChainlit, docs, total).1.total >= total
  {
  }

  /** The data-app writers of `write_document.py`, with their defaults. */
  const WriteDataRequirementsDocument := DocAction("write_requirements_document", "Write a Requirements Document and return the result.", "PRDDataSchema", "prd")
  const WriteDataModelDocument := DocAction("write_data_model_document", "Write a data model documentation and return the result.", "DataModelSchema", "data_model")
  const WriteDataTechnicalDesignDocument := DocAction("write_design_document", "Write a design document and return the result.", "SDDDataSchema", "sdd")
  const WriteDataDevelopmentBacklogDocument := DocAction("write_backlog_document", "Write a backlog document and return the result.", "BacklogDataSchema", "backlog")
  /** The web-app writers. */
  const WriteWebRequirementsDocument := DocAction("write_requirements_document", "Write a Requirements Document and return the result.", "PRDWebSchema", "prd")
  const WriteWebTechnicalDesignDocument := DocAction("write_design_document", "Write a design document and return the result.", "SDDWebSchema", "sdd")
  const WriteWebDevelopmentBacklogDocument := DocAction("write_backlog_document", "Write a backlog document and return the result.", "BacklogWebSchema", "backlog")

  /** The four data-app writers store under four different keys; each web
      writer has the name and the key of its data counterpart and differs
      only in the schema. */
  lemma DefaultWriters()
    ensures |{WriteDataRequirementsDocument.documentName, WriteDataModelDocument.documentName,
              WriteDataTechnicalDesignDocument.documentName, WriteDataDevelopmentBacklogDocument.documentName}| == 4
    ensures WriteWebRequirementsDocument == WriteDataRequirementsDocument.(schema := "PRDWebSchema")
    ensures WriteWebTechnicalDesignDocument == WriteDataTechnicalDesignDocument.(schema := "SDDWebSchema")
    ensures WriteWebDevelopmentBacklogDocument == WriteDataDevelopmentBacklogDocument.(schema := "BacklogWebSchema")
  {
    var s := {"prd", "data_model", "sdd", "backlog"};
    assert "prd" != "data_model" && "prd" != "sdd" && "prd" != "backlog";
    assert "data_model" != "sdd" && "data_model" != "backlog" && "sdd" != "backlog";
    assert |s| == 4;
  }
}
