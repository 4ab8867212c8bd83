/** The development-backlog document schemas and their field formatters.

    `wrap_in_backticks` and `pretty_list` exist in three identical copies
    (`aipreneuros/actions/document_schema/backlog_web.py`,
    `aipreneuros/actions/document_schema/backlog_data.py` and
    `appgen/actions/document_schema/backlog.py`); they are defined once
    here. `BacklogDataSchema` and appgen's `BacklogSchema` declare the same
    fields in the same order and share the record `DataBacklog`. */
module Backlog {
  import opened Wrappers
  import opened PyStr
  import opened Json

  const Fence := "```"
  const PythonFence := "```python\n"

  /** The test `wrap_in_backticks` uses to leave a string alone: it opens
      with a bare or a python fence line and closes with a fence. */
  predicate IsWrapped(s: string) {
    (StartsWith(s, "```\n") || StartsWith(s, PythonFence)) && (EndsWith(s, Fence) || EndsWith(s, "```\n"))
  }

  /** `wrap_in_backticks(s)` on a string: a wrapped string is returned as
      it is, anything else is enclosed in a python fence. */
  function WrapInBackticks(s: string): (r: string)
    ensures IsWrapped(r)
    ensures IsWrapped(s) ==> r == s
    ensures !IsWrapped(s) ==>
              |r| == |PythonFence| + |s| + 4 && r[..|PythonFence|] == PythonFence &&
              r[|PythonFence|..|PythonFence| + |s|] == s && r[|PythonFence| + |s|..] == "\n```"
  {
    if IsWrapped(s) then s
    else
      var r := PythonFence + s + "\n```";
      assert r[..|PythonFence|] == PythonFence;
      assert r[|r| - 3..] == Fence;
      assert r[|PythonFence| + |s|..] == "\n```";
      assert r[|PythonFence|..|PythonFence| + |s|] == s;
      r
  }

  /** Wrapping twice is wrapping once. */
  lemma WrapIdempotent(s: string)
    ensures WrapInBackticks(WrapInBackticks(s)) == WrapInBackticks(s)
  {
  }

  /** `wrap_in_backticks(v)` on whatever the field holds: anything but a
      string has no `startswith` and raises AttributeError. */
  function WrapValue(v: Value): (r: Result<string>)
    ensures r.Ok? <==> v.Str?
    ensures r.Ok? ==> r.value == WrapInBackticks(v.s)
    ensures r.Err? ==> r.error == AttributeError("startswith")
  {
    match v
    case Str(s) => Ok(WrapInBackticks(s))
    case _ => Err(AttributeError("startswith"))
  }

  /** The text `pretty_list` makes of a pair: its first element in bold
      code, a colon, its second element. */
  function PairText(a: Value, b: Value): string {
    "**`" + Show(a) + "`**: " + Show(b)
  }

  /** The contribution of one item to `pretty_list`: a list gives its
      entry (IndexError when it has fewer than two elements), any other
      item gives nothing. */
  function PrettyItem(item: Value): (r: Result<seq<string>>)
    ensures r.Ok? <==> !item.List? || |item.items| >= 2
    ensures r.Ok? && item.List? ==> r.value == [PairText(item.items[0], item.items[1])]
    ensures r.Ok? && !item.List? ==> r.value == []
    ensures r.Err? ==> r.error == IndexError
  {
    match item
    case List(xs) => if |xs| < 2 then Err(IndexError) else Ok([PairText(xs[0], xs[1])])
    case _ => Ok([])
  }

  /** The list items of `items`, in order: the items `pretty_list` keeps. */
  ghost function Kept(items: seq<Value>): (k: seq<seq<Value>>)
    ensures |k| <= |items|
  {
    if |items| == 0 then []
    else Kept(items[..|items| - 1]) + (if items[|items| - 1].List? then [items[|items| - 1].items] else [])
  }

  lemma {:induction false} KeptAppend(a: seq<Value>, b: seq<Value>)
    ensures Kept(a + b) == Kept(a) + Kept(b)
    decreases |b|
  {
    if |b| == 0 {
      assert a + b == a;
    } else {
      assert (a + b)[..|a + b| - 1] == a + b[..|b| - 1];
      KeptAppend(a, b[..|b| - 1]);
    }
  }

  /** Every list item has at least two elements. */
  predicate PairsComplete(items: seq<Value>) {
    forall i :: 0 <= i < |items| && items[i].List? ==> |items[i].items| >= 2
  }

  /** The `for` loop of `pretty_list` over a sequence of items. */
  function PrettyItems(items: seq<Value>): (r: Result<seq<string>>)
    ensures r.Ok? <==> PairsComplete(items)
    ensures r.Ok? ==> |r.value| == |Kept(items)|
    ensures r.Ok? ==> forall k :: 0 <= k < |r.value| ==>
                        |Kept(items)[k]| >= 2 && r.value[k] == PairText(Kept(items)[k][0], Kept(items)[k][1])
    ensures r.Err? ==> r.error == IndexError
    decreases |items|
  {
    if |items| == 0 then Ok([])
    else
      var head := PrettyItem(items[0]);
      if head.Err? then Err(IndexError)
      else
        var rest := PrettyItems(items[1..]);
        PairsCompleteCons(items);
        if rest.Err? then Err(IndexError)
        else
          KeptCons(items);
          Ok(head.value + rest.value)
  }

  /** Every list item is a pair iff the first is and the others are. */
  lemma PairsCompleteCons(items: seq<Value>)
    requires |items| > 0
    ensures PairsComplete(items) <==> (!items[0].List? || |items[0].items| >= 2) && PairsComplete(items[1..])
  {
    if (!items[0].List? || |items[0].items| >= 2) && PairsComplete(items[1..]) {
      forall i | 0 <= i < |items| && items[i].List? ensures |items[i].items| >= 2 {
        if i > 0 { assert items[i] == items[1..][i - 1]; }
      }
    }
  }

  /** The kept items are the first item's, if it is a list, then the
      others'. */
  lemma KeptCons(items: seq<Value>)
    requires |items| > 0
    ensures Kept(items) == (if items[0].List? then [items[0].items] else []) + Kept(items[1..])
  {
    KeptAppend([items[0]], items[1..]);
    assert [items[0]] + items[1..] == items;
    assert Kept([items[0]]) == (if items[0].List? then [items[0].items] else []) by {
      assert [items[0]][..0] == [];
    }
  }

  /** `pretty_list(v)`: a list is filtered item by item; iterating a string
      or a dict yields strings, which are never kept; any other value is
      not iterable and raises TypeError. */
  function PrettyList(v: Value): (r: Result<seq<string>>)
    ensures v.Str? || v.Obj? ==> r == Ok([])
    ensures v.List? ==> r == PrettyItems(v.items)
    ensures !v.Str? && !v.Obj? && !v.List? ==> r.Err? && r.error.TypeError?
  {
    match v
    case List(items) => PrettyItems(items)
    case Str(_) => Ok([])
    case Obj(_) => Ok([])
    case _ => Err(TypeError("object is not iterable"))
  }

  /** `pretty_list` keeps only list items, in order, one entry each, so it
      never lengthens its input. */
  lemma PrettyListShrinks(items: seq<Value>)
    requires PrettyList(List(items)).Ok?
    ensures |PrettyList(List(items)).value| <= |items|
    ensures (forall i :: 0 <= i < |items| ==> !items[i].List?) ==> PrettyList(List(items)).value == []
  {
    if forall i :: 0 <= i < |items| ==> !items[i].List? {
      NoListsKeepNothing(items);
    }
  }

  lemma {:induction false} NoListsKeepNothing(items: seq<Value>)
    requires forall i :: 0 <= i < |items| ==> !items[i].List?
    ensures Kept(items) == []
    decreases |items|
  {
    if |items| > 0 {
      NoListsKeepNothing(items[..|items| - 1]);
    }
  }

  function Strs(xs: seq<string>): (vs: seq<Value>)
    ensures |vs| == |xs|
    ensures forall i :: 0 <= i < |xs| ==> vs[i] == Str(xs[i])
  {
    seq(|xs|, i requires 0 <= i < |xs| => Str(xs[i]))
  }

  /** `BacklogDataSchema`, and appgen's `BacklogSchema`, which has the same
      fields. The list fields hold whatever JSON the model returned. */
  datatype DataBacklog = DataBacklog(
    title: string,
    pythonPackageName: string,
    dependenciesAndTools: seq<Value>,
    requiredPythonPackages: string,
    taskList: seq<Value>,
    fullApiSpec: string)

  /** `model_dump_json` of a data backlog, field by field in declaration
      order; `excludeRequired` leaves out `RequiredPythonPackages`. */
  function DataJson(b: DataBacklog, excludeRequired: bool): (v: Value)
    ensures v.Obj? && |v.fields| == if excludeRequired then 5 else 6
    ensures v.fields[0] == ("Title", Str(b.title))
    ensures ("RequiredPythonPackages", Str(b.requiredPythonPackages)) in v.fields <==> !excludeRequired
  {
    Obj([("Title", Str(b.title)), ("PythonPackageName", Str(b.pythonPackageName)),
         ("DependenciesandTools", List(b.dependenciesAndTools))]
        + (if excludeRequired then [] else [("RequiredPythonPackages", Str(b.requiredPythonPackages))])
        + [("TaskList", List(b.taskList)), ("FullAPISpec", Str(b.fullApiSpec))])
  }

  /** Dumping with the required packages excluded is dumping every field
      and dropping that one: `exclude` removes exactly its key. */
  lemma DataJsonExclude(b: DataBacklog)
    ensures DataJson(b, true) == Obj(Omit(DataJson(b, false).fields, {"RequiredPythonPackages"}))
  {
    var x := {"RequiredPythonPackages"};
    var a := [("Title", Str(b.title)), ("PythonPackageName", Str(b.pythonPackageName)),
              ("DependenciesandTools", List(b.dependenciesAndTools))];
    var req := [("RequiredPythonPackages", Str(b.requiredPythonPackages))];
    var c := [("TaskList", List(b.taskList)), ("FullAPISpec", Str(b.fullApiSpec))];
    assert DataJson(b, false).fields == a + req + c;
    assert DataJson(b, true).fields == a + c;
    OmitMiddle(a, req[0], c, x);
    assert a + req + c == a + [req[0]] + c;
  }

  /** The field transforms of `parse`: both string fields wrapped, both
      list fields prettified (dependencies first). */
  function TransformData(b: DataBacklog): (r: Result<DataBacklog>)
    ensures r.Ok? <==> PairsComplete(b.dependenciesAndTools) && PairsComplete(b.taskList)
    ensures r.Err? ==> r.error == IndexError
    ensures r.Ok? ==> r.value.title == b.title && r.value.requiredPythonPackages == b.requiredPythonPackages
    ensures r.Ok? ==> IsWrapped(r.value.pythonPackageName) && IsWrapped(r.value.fullApiSpec)
    ensures r.Ok? ==> |r.value.dependenciesAndTools| == |Kept(b.dependenciesAndTools)|
    ensures r.Ok? ==> |r.value.taskList| == |Kept(b.taskList)|
    ensures r.Ok? ==> r.value.pythonPackageName == WrapInBackticks(b.pythonPackageName)
                      && r.value.fullApiSpec == WrapInBackticks(b.fullApiSpec)
    ensures r.Ok? ==> r.value.dependenciesAndTools == Strs(PrettyItems(b.dependenciesAndTools).value)
                      && r.value.taskList == Strs(PrettyItems(b.taskList).value)
  {
    var deps :- PrettyItems(b.dependenciesAndTools);
    var tasks :- PrettyItems(b.taskList);
    Ok(b.(pythonPackageName := WrapInBackticks(b.pythonPackageName),
          fullApiSpec := WrapInBackticks(b.fullApiSpec),
          dependenciesAndTools := Strs(deps),
          taskList := Strs(tasks)))
  }

  /** `BacklogDataSchema.parse` (and appgen's `BacklogSchema.parse`): the
      rendered markdown of the transformed backlog without
      `RequiredPythonPackages`, reading the `exclude` list as the set it
      is meant to be (see `Documents.ParseAsWritten`). */
  function ParseData(b: DataBacklog): (r: Result<string>)
    ensures r.Ok? <==> TransformData(b).Ok?
  {
    var t :- TransformData(b);
    Ok(Markdown(DataJson(t, true), 2))
  }

  /** The rendered backlog is the title line and then the four remaining
      sections in declaration order; the required packages never appear
      as a section, and changing them does not change the document. */
  lemma ParseDataSections(b: DataBacklog, p: string)
    requires ParseData(b).Ok?
    ensures var t := TransformData(b).value;
      ParseData(b).value ==
        "# " + b.title + "\n\n"
        + Section("PythonPackageName", Str(t.pythonPackageName), 2)
        + Section("DependenciesandTools", List(t.dependenciesAndTools), 2)
        + Section("TaskList", List(t.taskList), 2)
        + Section("FullAPISpec", Str(t.fullApiSpec), 2)
    ensures ParseData(b.(requiredPythonPackages := p)) == ParseData(b)
  {
    var t := TransformData(b).value;
    var f1 := ("Title", Str(t.title));
    var f2 := ("PythonPackageName", Str(t.pythonPackageName));
    var f3 := ("DependenciesandTools", List(t.dependenciesAndTools));
    var f4 := ("TaskList", List(t.taskList));
    var f5 := ("FullAPISpec", Str(t.fullApiSpec));
    assert DataJson(t, true) == Obj([f1] + [f2] + [f3] + [f4] + [f5]);
    MarkdownOfConcat([f1] + [f2] + [f3] + [f4], [f5], 2);
    MarkdownOfConcat([f1] + [f2] + [f3], [f4], 2);
    MarkdownOfConcat([f1] + [f2], [f3], 2);
    MarkdownOfConcat([f1], [f2], 2);
    MarkdownOfSmallObjects(f1.0, f1.1, 2);
    MarkdownOfSmallObjects(f2.0, f2.1, 2);
    MarkdownOfSmallObjects(f3.0, f3.1, 2);
    MarkdownOfSmallObjects(f4.0, f4.1, 2);
    MarkdownOfSmallObjects(f5.0, f5.1, 2);
    assert TransformData(b.(requiredPythonPackages := p)) == Ok(t.(requiredPythonPackages := p));
  }

  /** appgen's `BacklogSchema.get_format_example`, as a record. */
  const AppgenFormatExample := DataBacklog(
    "Development Backlog Document",
    "```python\npackage_name\n```",
    [],
    "\n    ",
    [List([Str("..."), Str("...")])],
    " ")

  /** The format example's package name is already fenced, so `parse`
      keeps it; its API spec is not, so `parse` fences it. */
  lemma AppgenFormatExampleParse()
    ensures TransformData(AppgenFormatExample).Ok?
    ensures TransformData(AppgenFormatExample).value.pythonPackageName == AppgenFormatExample.pythonPackageName
    ensures TransformData(AppgenFormatExample).value.fullApiSpec == "```python\n \n```"
    ensures TransformData(AppgenFormatExample).value.taskList == [Str("**`...`**: ...")]
  {
    var e := AppgenFormatExample;
    assert IsWrapped(e.pythonPackageName) by {
      assert e.pythonPackageName[..|PythonFence|] == PythonFence;
      assert e.pythonPackageName[|e.pythonPackageName| - 3..] == Fence;
    }
    assert !IsWrapped(e.fullApiSpec);
    assert e.taskList == [List([Str("..."), Str("...")])];
    OnePairLine(Str("..."), Str("..."));
    assert PrettyItems(e.dependenciesAndTools) == Ok([]);
  }

  /** A list holding one pair prettifies to that pair's line. */
  lemma OnePairLine(a: Value, b: Value)
    ensures PrettyItems([List([a, b])]) == Ok([PairText(a, b)])
    ensures PairText(Str("..."), Str("...")) == "**`...`**: ..."
  {
    var t := [List([a, b])];
    assert PrettyItem(t[0]) == Ok([PairText(a, b)]);
    assert t[1..] == [];
    assert PrettyItems(t[1..]) == Ok([]);
    assert [PairText(a, b)] + [] == [PairText(a, b)];
  }

  /** `BacklogWebSchema`. */
  datatype WebBacklog = WebBacklog(
    title: string,
    packageName: string,
    ux: seq<Value>,
    taskList: seq<Value>,
    implementationList: seq<Value>,
    requiredPackages: string,
    dependenciesAndTools: seq<Value>,
    security: seq<Value>,
    testCases: seq<Value>)

  /** `model_dump_json` of a web backlog in declaration order;
      `excludeRequired` leaves out `RequiredPackages`. */
  function WebJson(b: WebBacklog, packageName: Value, ux: Value, excludeRequired: bool): (v: Value)
    ensures v.Obj? && |v.fields| == if excludeRequired then 8 else 9
    ensures v.fields[0] == ("Title", Str(b.title)) && v.fields[1] == ("PackageName", packageName) && v.fields[2] == ("UX", ux)
    ensures ("RequiredPackages", Str(b.requiredPackages)) in v.fields <==> !excludeRequired
  {
    Obj([("Title", Str(b.title)), ("PackageName", packageName), ("UX", ux),
         ("TaskList", List(b.taskList)), ("ImplementationList", List(b.implementationList))]
        + (if excludeRequired then [] else [("RequiredPackages", Str(b.requiredPackages))])
        + [("DependenciesandTools", List(b.dependenciesAndTools)), ("Security", List(b.security)),
           ("TestCases", List(b.testCases))])
  }

  /** Likewise for the web backlog and its `RequiredPackages`. */
  lemma WebJsonExclude(b: WebBacklog, packageName: Value, ux: Value)
    ensures WebJson(b, packageName, ux, true) == Obj(Omit(WebJson(b, packageName, ux, false).fields, {"RequiredPackages"}))
  {
    var x := {"RequiredPackages"};
    var a := [("Title", Str(b.title)), ("PackageName", packageName), ("UX", ux),
              ("TaskList", List(b.taskList)), ("ImplementationList", List(b.implementationList))];
    var req := [("RequiredPackages", Str(b.requiredPackages))];
    var c := [("DependenciesandTools", List(b.dependenciesAndTools)), ("Security", List(b.security)),
              ("TestCases", List(b.testCases))];
    assert WebJson(b, packageName, ux, false).fields == a + req + c;
    assert WebJson(b, packageName, ux, true).fields == a + c;
    OmitMiddle(a, req[0], c, x);
    assert a + req + c == a + [req[0]] + c;
  }

  /** `BacklogWebSchema.parse` as written: the package name (a string) goes
      through `pretty_list` and the `UX` list through `wrap_in_backticks`.
      The second has no `startswith`, so parsing a web backlog always
      raises AttributeError. */
  function ParseWeb(b: WebBacklog): (r: Result<string>)
    ensures r == Err(AttributeError("startswith"))
  {
    var pkg := PrettyList(Str(b.packageName));
    assert pkg == Ok([]);
    var ux := WrapValue(List(b.ux));
    assert ux.Err?;
    Err(ux.error)
  }

  /** The field transforms of `BacklogWebSchema.parse` with the two
      formatters the other way round, as in the data schema: the package
      name is fenced and the `UX` list prettified along with the other
      lists. */
  function TransformWebIntended(b: WebBacklog): (r: Result<WebBacklog>)
    ensures r.Ok? <==> PairsComplete(b.ux) && PairsComplete(b.taskList) && PairsComplete(b.implementationList)
                       && PairsComplete(b.dependenciesAndTools) && PairsComplete(b.security) && PairsComplete(b.testCases)
    ensures r.Err? ==> r.error == IndexError
    ensures r.Ok? ==> r.value.title == b.title && r.value.requiredPackages == b.requiredPackages
    ensures r.Ok? ==> IsWrapped(r.value.packageName)
    ensures r.Ok? ==> r.value.packageName == WrapInBackticks(b.packageName)
    ensures r.Ok? ==> |r.value.ux| == |Kept(b.ux)| && |r.value.taskList| == |Kept(b.taskList)|
                      && |r.value.implementationList| == |Kept(b.implementationList)|
                      && |r.value.dependenciesAndTools| == |Kept(b.dependenciesAndTools)|
                      && |r.value.security| == |Kept(b.security)| && |r.value.testCases| == |Kept(b.testCases)|
    ensures r.Ok? ==> r.value.ux == Strs(PrettyItems(b.ux).value)
                      && r.value.taskList == Strs(PrettyItems(b.taskList).value)
                      && r.value.implementationList == Strs(PrettyItems(b.implementationList).value)
                      && r.value.dependenciesAndTools == Strs(PrettyItems(b.dependenciesAndTools).value)
                      && r.value.security == Strs(PrettyItems(b.security).value)
                      && r.value.testCases == Strs(PrettyItems(b.testCases).value)
  {
    var ux :- PrettyItems(b.ux);
    var tasks :- PrettyItems(b.taskList);
    var impl :- PrettyItems(b.implementationList);
    var deps :- PrettyItems(b.dependenciesAndTools);
    var sec :- PrettyItems(b.security);
    var tests :- PrettyItems(b.testCases);
    Ok(b.(packageName := WrapInBackticks(b.packageName), ux := Strs(ux), taskList := Strs(tasks),
          implementationList := Strs(impl), dependenciesAndTools := Strs(deps),
          security := Strs(sec), testCases := Strs(tests)))
  }

  /** `BacklogWebSchema.parse` as intended: the markdown of the transformed
      backlog without `RequiredPackages`. */
  function ParseWebIntended(b: WebBacklog): (r: Result<string>)
    ensures r.Ok? <==> TransformWebIntended(b).Ok?
  {
    var t :- TransformWebIntended(b);
    Ok(Markdown(WebJson(t, Str(t.packageName), List(t.ux), true), 2))
  }

  /** The markdown of a web backlog dumped without `RequiredPackages`: the
      title line, then the seven other sections in declaration order. */
  lemma WebMarkdownSections(t: WebBacklog)
    ensures Markdown(WebJson(t, Str(t.packageName), List(t.ux), true), 2) ==
              "# " + t.title + "\n\n"
              + Section("PackageName", Str(t.packageName), 2)
              + Section("UX", List(t.ux), 2)
              + Section("TaskList", List(t.taskList), 2)
              + Section("ImplementationList", List(t.implementationList), 2)
              + Section("DependenciesandTools", List(t.dependenciesAndTools), 2)
              + Section("Security", List(t.security), 2)
              + Section("TestCases", List(t.testCases), 2)
  {
    var f1 := ("Title", Str(t.title));
    var f2 := ("PackageName", Str(t.packageName));
    var f3 := ("UX", List(t.ux));
    var f4 := ("TaskList", List(t.taskList));
    var f5 := ("ImplementationList", List(t.implementationList));
    var f6 := ("DependenciesandTools", List(t.dependenciesAndTools));
    var f7 := ("Security", List(t.security));
    var f8 := ("TestCases", List(t.testCases));
    assert WebJson(t, Str(t.packageName), List(t.ux), true) == Obj([f1, f2, f3, f4, f5, f6, f7, f8]);
    MarkdownOfEight(f1, f2, f3, f4, f5, f6, f7, f8, 2);
    MarkdownOfSmallObjects(f1.0, f1.1, 2);
  }

  /** The intended web parse renders the title line and then the seven
      remaining sections of the transformed backlog in declaration order,
      `RequiredPackages` left out. */
  lemma ParseWebIntendedSections(b: WebBacklog)
    requires ParseWebIntended(b).Ok?
    ensures var t := TransformWebIntended(b).value;
      ParseWebIntended(b).value ==
        "# " + b.title + "\n\n"
        + Section("PackageName", Str(t.packageName), 2)
        + Section("UX", List(t.ux), 2)
        + Section("TaskList", List(t.taskList), 2)
        + Section("ImplementationList", List(t.implementationList), 2)
        + Section("DependenciesandTools", List(t.dependenciesAndTools), 2)
        + Section("Security", List(t.security), 2)
        + Section("TestCases", List(t.testCases), 2)
  {
    var t := TransformWebIntended(b).value;
    WebMarkdownSections(t);
  }

  /** The intended web parse does not depend on `RequiredPackages`. */
  lemma ParseWebIntendedIgnoresRequired(b: WebBacklog, p: string)
    ensures ParseWebIntended(b.(requiredPackages := p)) == ParseWebIntended(b)
  {
    var r := TransformWebIntended(b);
    if r.Ok? {
      assert TransformWebIntended(b.(requiredPackages := p)) == Ok(r.value.(requiredPackages := p));
    }
  }
}
