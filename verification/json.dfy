/** JSON values as `json.loads` returns them, Python's `str()` of such a
    value, and the markdown renderer of `aipreneuros/utils/write_utils.py`. */
module Json {
  import opened Wrappers
  import opened PyStr

  /** A decoded JSON value; objects keep their key order. */
  datatype Value =
    | Null
    | Bool(b: bool)
    | Int(i: int)
    | Str(s: string)
    | List(items: seq<Value>)
    | Obj(fields: seq<(string, Value)>)

  /** Python's `repr()` of a value: strings quoted and escaped, anything
      else as `str()` prints it. */
  function Repr(v: Value): (r: string)
    ensures v.Str? ==> |r| >= 2 && r[0] == r[|r| - 1] == QuoteFor(v.s)
    ensures !v.Str? ==> r == Show(v)
    decreases v, 1
  {
    match v
    case Str(s) => StrRepr(s)
    case _ => Show(v)
  }

  /** Python's `str()` of a value: a string is its own text, containers
      print their items through `repr`. */
  function Show(v: Value): (r: string)
    ensures v.Str? ==> r == v.s
    ensures v.List? || v.Obj? ==> |r| >= 2
    ensures v.List? ==> r[0] == '[' && r[|r| - 1] == ']'
    ensures v.Obj? ==> r[0] == '{' && r[|r| - 1] == '}'
    decreases v, 0
  {
    match v
    case Null => "None"
    case Bool(b) => if b then "True" else "False"
    case Int(i) => IntToString(i)
    case Str(s) => s
    case List(items) =>
      "[" + Join(seq(|items|, k requires 0 <= k < |items| => Repr(items[k])), ", ") + "]"
    case Obj(fields) =>
      "{" + Join(seq(|fields|, k requires 0 <= k < |fields| =>
                   StrRepr(fields[k].0) + ": " + Repr(fields[k].1)), ", ") + "}"
  }

  /** The quote `repr` puts around a string: a double quote when the text
      holds a single quote and no double quote, a single quote otherwise. */
  function QuoteFor(s: string): (q: char)
    ensures q == '"' || q == '\''
  {
    if '\'' in s && '"' !in s then '"' else '\''
  }

  const HexDigits: string := "0123456789abcdef"

  /** Whether `repr` keeps a character as it is. In the Latin-1 range,
      printable ASCII and the printable Latin-1 signs and letters are kept;
      the C0 and C1 controls, DEL, NO-BREAK SPACE and SOFT HYPHEN are not.
      Every character beyond U+00FF counts as printable. */
  predicate Printable(c: char) {
    (32 <= c as int < 127) || (c as int > 0xa0 && c as int != 0xad)
  }

  /** How `repr` writes one character inside quotes `q`: the quote and the
      backslash get a backslash, tab, newline and carriage return get their
      letter escapes, other unprintable characters a `\xhh` escape. */
  function EscapeChar(c: char, q: char): (e: string)
    ensures 1 <= |e| <= 4
    ensures |e| == 1 <==> e == [c]
  {
    if c == q || c == '\\' then ['\\', c]
    else if c == '\t' then "\\t"
    else if c == '\n' then "\\n"
    else if c == '\r' then "\\r"
    else if Printable(c) then [c]
    else ['\\', 'x', HexDigits[c as int / 16], HexDigits[c as int % 16]]
  }

  /** The escaped text of a string, character by character. */
  function Escape(s: string, q: char): (e: string)
    ensures |e| >= |s|
  {
    if s == [] then "" else EscapeChar(s[0], q) + Escape(s[1..], q)
  }

  /** Python's `repr()` of a string. */
  function StrRepr(s: string): (r: string)
    ensures |r| >= 2 && r[0] == r[|r| - 1] == QuoteFor(s)
  {
    [QuoteFor(s)] + Escape(s, QuoteFor(s)) + [QuoteFor(s)]
  }

  /** The value of a lower-case hexadecimal digit. */
  function HexValue(c: char): (v: Option<nat>)
    ensures v.Some? ==> v.value < 16
  {
    if '0' <= c <= '9' then Some(c as int - '0' as int)
    else if 'a' <= c <= 'f' then Some(c as int - 'a' as int + 10)
    else None
  }

  /** Reading back the escapes `repr` writes: a backslash before `t`, `n`
      or `r` is that control character, before `x` and two hexadecimal
      digits the character with that code, and before anything else that
      character itself. */
  function Unescape(t: string): string
    decreases |t|
  {
    if |t| == 0 then ""
    else if t[0] == '\\' && |t| >= 2 then
      if t[1] == 't' then "\t" + Unescape(t[2..])
      else if t[1] == 'n' then "\n" + Unescape(t[2..])
      else if t[1] == 'r' then "\r" + Unescape(t[2..])
      else if t[1] == 'x' && |t| >= 4 && HexValue(t[2]).Some? && HexValue(t[3]).Some? then
        [(16 * HexValue(t[2]).value + HexValue(t[3]).value) as char] + Unescape(t[4..])
      else [t[1]] + Unescape(t[2..])
    else [t[0]] + Unescape(t[1..])
  }

  lemma HexDigitValue(k: nat)
    requires k < 16
    ensures HexValue(HexDigits[k]) == Some(k)
  {
    assert HexDigits[0] == '0' && HexDigits[1] == '1' && HexDigits[2] == '2' && HexDigits[3] == '3';
    assert HexDigits[4] == '4' && HexDigits[5] == '5' && HexDigits[6] == '6' && HexDigits[7] == '7';
    assert HexDigits[8] == '8' && HexDigits[9] == '9' && HexDigits[10] == 'a' && HexDigits[11] == 'b';
    assert HexDigits[12] == 'c' && HexDigits[13] == 'd' && HexDigits[14] == 'e' && HexDigits[15] == 'f';
  }

  lemma UnescapeChar(c: char, q: char, rest: string)
    requires q == '"' || q == '\''
    ensures Unescape(EscapeChar(c, q) + rest) == [c] + Unescape(rest)
  {
    var e := EscapeChar(c, q);
    if c == q || c == '\\' || c == '\t' || c == '\n' || c == '\r' {
      assert (e + rest)[2..] == rest;
    } else if Printable(c) {
      assert (e + rest)[1..] == rest;
    } else {
      var n := c as int;
      HexDigitValue(n / 16);
      HexDigitValue(n % 16);
      assert (e + rest)[4..] == rest;
      assert (16 * (n / 16) + n % 16) as char == c;
    }
  }

  /** Reading back what `repr` wrote gives the string again, for either
      quote: the escapes lose nothing. */
  lemma {:induction false} UnescapeEscape(s: string, q: char)
    requires q == '"' || q == '\''
    ensures Unescape(Escape(s, q)) == s
  {
    if s != [] {
      UnescapeEscape(s[1..], q);
      UnescapeChar(s[0], q, Escape(s[1..], q));
      assert [s[0]] + s[1..] == s;
    }
  }

  /** `repr` of a string is the string between quotes, with exactly the
      escapes needed to read it back, and the double quote is chosen iff
      the text holds a single quote and no double quote. */
  lemma StrReprRoundTrip(s: string)
    ensures var r := StrRepr(s);
            (r[0] == '"' <==> '\'' in s && '"' !in s) &&
            Unescape(r[1..|r| - 1]) == s
  {
    var r := StrRepr(s);
    assert r[1..|r| - 1] == Escape(s, QuoteFor(s));
    UnescapeEscape(s, QuoteFor(s));
  }

  /** A string of printable characters with no single quote and no
      backslash is written between single quotes as it is. */
  lemma {:induction false} StrReprPlain(s: string)
    requires forall i :: 0 <= i < |s| ==> Printable(s[i]) && s[i] != '\'' && s[i] != '\\'
    ensures StrRepr(s) == "'" + s + "'"
  {
    EscapePlain(s);
  }

  lemma {:induction false} EscapePlain(s: string)
    requires forall i :: 0 <= i < |s| ==> Printable(s[i]) && s[i] != '\'' && s[i] != '\\'
    ensures Escape(s, '\'') == s
  {
    if s != [] {
      EscapePlain(s[1..]);
      assert [s[0]] + s[1..] == s;
    }
  }

  /** A two-item list prints its items' `repr`s between brackets. */
  lemma ShowPair(a: Value, b: Value)
    ensures Show(List([a, b])) == "[" + Repr(a) + ", " + Repr(b) + "]"
  {
    var items := [a, b];
    var parts := [Repr(a), Repr(b)];
    assert Show(List(items)) == "[" + Join(parts, ", ") + "]" by {
      assert seq(|items|, k requires 0 <= k < |items| => Repr(items[k])) == parts;
    }
    assert Join(parts, ", ") == Repr(a) + ", " + Repr(b) by {
      assert parts[..|parts| - 1] == [Repr(a)];
      assert Join([Repr(a)], ", ") == Repr(a);
    }
  }

  /** A string of printable characters with a single quote and no double
      quote or backslash is written between double quotes as it is. */
  lemma DoubleQuoted(s: string)
    requires '\'' in s
    requires forall i :: 0 <= i < |s| ==> Printable(s[i]) && s[i] != '"' && s[i] != '\\'
    ensures StrRepr(s) == "\"" + s + "\""
  {
    EscapePlainDouble(s);
  }

  lemma {:induction false} EscapePlainDouble(s: string)
    requires forall i :: 0 <= i < |s| ==> Printable(s[i]) && s[i] != '"' && s[i] != '\\'
    ensures Escape(s, '"') == s
  {
    if s != [] {
      EscapePlainDouble(s[1..]);
      assert [s[0]] + s[1..] == s;
    }
  }

  /** The entries of an object whose key is not in `names`, in order: what
      `model_dump_json(exclude=names)` keeps. */
  function Omit(fields: seq<(string, Value)>, names: set<string>): (r: seq<(string, Value)>)
    ensures |r| <= |fields|
    ensures forall e :: e in r <==> e in fields && e.0 !in names
  {
    if fields == [] then []
    else (if fields[0].0 in names then [] else [fields[0]]) + Omit(fields[1..], names)
  }

  /** Omitting from a concatenation omits from each part. */
  lemma {:induction false} OmitAppend(a: seq<(string, Value)>, b: seq<(string, Value)>, names: set<string>)
    ensures Omit(a + b, names) == Omit(a, names) + Omit(b, names)
  {
    if a == [] {
      assert a + b == b;
    } else {
      assert (a + b)[0] == a[0] && (a + b)[1..] == a[1..] + b;
      OmitAppend(a[1..], b, names);
      var h := if a[0].0 in names then [] else [a[0]];
      assert Omit(a + b, names) == h + (Omit(a[1..], names) + Omit(b, names));
    }
  }

  /** Excluding keys an object does not have keeps every entry. */
  lemma {:induction false} OmitKeep(fields: seq<(string, Value)>, names: set<string>)
    requires forall i :: 0 <= i < |fields| ==> fields[i].0 !in names
    ensures Omit(fields, names) == fields
  {
    if fields != [] {
      OmitKeep(fields[1..], names);
      assert [fields[0]] + fields[1..] == fields;
    }
  }

  /** Excluding the key of one entry between entries with other keys drops
      exactly that entry. */
  lemma OmitMiddle(a: seq<(string, Value)>, e: (string, Value), c: seq<(string, Value)>, names: set<string>)
    requires forall i :: 0 <= i < |a| ==> a[i].0 !in names
    requires forall i :: 0 <= i < |c| ==> c[i].0 !in names
    requires e.0 in names
    ensures Omit(a + [e] + c, names) == a + c
  {
    assert Omit(a + [e] + c, names) == Omit(a + [e], names) + Omit(c, names) by {
      OmitAppend(a + [e], c, names);
    }
    assert Omit(a + [e], names) == Omit(a, names) + Omit([e], names) by {
      OmitAppend(a, [e], names);
    }
    assert Omit([e], names) == [] by {
      assert [e][1..] == [];
    }
    OmitKeep(a, names);
    OmitKeep(c, names);
    assert a + [] == a;
  }

  /** Excluding nothing keeps every entry. */
  lemma OmitNothing(fields: seq<(string, Value)>)
    ensures Omit(fields, {}) == fields
  {
    OmitKeep(fields, {});
  }

  /** `"#" * depth`; a non-positive depth gives the empty string. */
  function Hashes(depth: int): (h: string)
    ensures |h| == if depth <= 0 then 0 else depth
    ensures forall i :: 0 <= i < |h| ==> h[i] == '#'
    decreases if depth <= 0 then 0 else depth
  {
    if depth <= 0 then "" else "#" + Hashes(depth - 1)
  }

  /** `json_to_markdown(data, depth)`: a dict renders key by key, anything
      else renders as `str(data)`. */
  function Markdown(data: Value, depth: int): (r: string)
    ensures !data.Obj? ==> r == Show(data)
    ensures data == Obj([]) ==> r == ""
    decreases data, 1
  {
    match data
    case Obj(_) => SectionsFrom(data, 0, depth)
    case _ => Show(data)
  }

  /** The sections of the keys of `data` from position `i` on, concatenated. */
  function SectionsFrom(data: Value, i: nat, depth: int): string
    requires data.Obj? && i <= |data.fields|
    decreases data, 0, |data.fields| - i
  {
    if i == |data.fields| then ""
    else Section(data.fields[i].0, data.fields[i].1, depth) + SectionsFrom(data, i + 1, depth)
  }

  /** The text one dict entry contributes. A list or nested dict is
      recognised before the `Title` key is, so only a scalar title becomes a
      level-one heading. */
  function Section(key: string, value: Value, depth: int): string
    decreases value, 2
  {
    match value
    case List(items) =>
      Hashes(depth) + " " + key + "\n\n"
      + "- " + Join(seq(|items|, k requires 0 <= k < |items| => Show(items[k])), "\n- ") + "\n\n"
    case Obj(_) =>
      Hashes(depth) + " " + key + "\n\n" + Markdown(value, depth + 1)
    case _ =>
      if key == "Title" then "# " + Show(value) + "\n\n"
      else Hashes(depth) + " " + key + "\n\n" + Show(value) + "\n\n"
  }

  lemma {:induction false} SectionsFromAppend(a: seq<(string, Value)>, b: seq<(string, Value)>, i: nat, depth: int)
    requires i <= |a|
    ensures SectionsFrom(Obj(a + b), i, depth) == SectionsFrom(Obj(a), i, depth) + SectionsFrom(Obj(b), 0, depth)
    decreases |a| - i
  {
    if i < |a| {
      SectionsFromAppend(a, b, i + 1, depth);
      assert (a + b)[i] == a[i];
    } else {
      SectionsFromShift(a, b, 0, depth);
    }
  }

  lemma {:induction false} SectionsFromShift(a: seq<(string, Value)>, b: seq<(string, Value)>, j: nat, depth: int)
    requires j <= |b|
    ensures SectionsFrom(Obj(a + b), |a| + j, depth) == SectionsFrom(Obj(b), j, depth)
    decreases |b| - j
  {
    var f := a + b;
    if j < |b| {
      SectionsFromShift(a, b, j + 1, depth);
      assert f[|a| + j] == b[j];
      assert SectionsFrom(Obj(f), |a| + j, depth) == Section(b[j].0, b[j].1, depth) + SectionsFrom(Obj(f), |a| + j + 1, depth);
    } else {
      assert |a| + j == |f|;
    }
  }

  /** A dict renders as the concatenation of its entries' sections in key
      order: splitting the entries splits the text. */
  lemma MarkdownOfConcat(a: seq<(string, Value)>, b: seq<(string, Value)>, depth: int)
    ensures Markdown(Obj(a + b), depth) == Markdown(Obj(a), depth) + Markdown(Obj(b), depth)
  {
    SectionsFromAppend(a, b, 0, depth);
  }

  /** The empty dict renders as the empty string and a one-key dict as that
      key's section. */
  lemma MarkdownOfSmallObjects(key: string, value: Value, depth: int)
    ensures Markdown(Obj([]), depth) == ""
    ensures Markdown(Obj([(key, value)]), depth) == Section(key, value, depth)
  {
    assert SectionsFrom(Obj([(key, value)]), 1, depth) == "";
  }

  /** A four-key dict renders as its four sections in key order. */
  lemma MarkdownOfFour(e1: (string, Value), e2: (string, Value), e3: (string, Value), e4: (string, Value), depth: int)
    ensures Markdown(Obj([e1, e2, e3, e4]), depth) ==
              Section(e1.0, e1.1, depth) + Section(e2.0, e2.1, depth) + Section(e3.0, e3.1, depth) + Section(e4.0, e4.1, depth)
  {
    assert [e1, e2, e3, e4] == [e1, e2] + [e3, e4];
    MarkdownOfConcat([e1, e2], [e3, e4], depth);
    assert [e1, e2] == [e1] + [e2];
    MarkdownOfConcat([e1], [e2], depth);
    assert [e3, e4] == [e3] + [e4];
    MarkdownOfConcat([e3], [e4], depth);
    MarkdownOfSmallObjects(e1.0, e1.1, depth);
    MarkdownOfSmallObjects(e2.0, e2.1, depth);
    MarkdownOfSmallObjects(e3.0, e3.1, depth);
    MarkdownOfSmallObjects(e4.0, e4.1, depth);
  }

  /** An eight-key dict renders as its eight sections in key order. */
  lemma MarkdownOfEight(e1: (string, Value), e2: (string, Value), e3: (string, Value), e4: (string, Value),
                        e5: (string, Value), e6: (string, Value), e7: (string, Value), e8: (string, Value), depth: int)
    ensures Markdown(Obj([e1, e2, e3, e4, e5, e6, e7, e8]), depth) ==
              Section(e1.0, e1.1, depth) + Section(e2.0, e2.1, depth) + Section(e3.0, e3.1, depth) + Section(e4.0, e4.1, depth)
              + Section(e5.0, e5.1, depth) + Section(e6.0, e6.1, depth) + Section(e7.0, e7.1, depth) + Section(e8.0, e8.1, depth)
  {
    var head := Markdown(Obj([e1, e2, e3, e4]), depth);
    var tail := Markdown(Obj([e5, e6, e7, e8]), depth);
    assert Markdown(Obj([e1, e2, e3, e4, e5, e6, e7, e8]), depth) == head + tail by {
      assert [e1, e2, e3, e4, e5, e6, e7, e8] == [e1, e2, e3, e4] + [e5, e6, e7, e8];
      MarkdownOfConcat([e1, e2, e3, e4], [e5, e6, e7, e8], depth);
    }
    assert head == Section(e1.0, e1.1, depth) + Section(e2.0, e2.1, depth) + Section(e3.0, e3.1, depth) + Section(e4.0, e4.1, depth) by {
      MarkdownOfFour(e1, e2, e3, e4, depth);
    }
    assert tail == Section(e5.0, e5.1, depth) + Section(e6.0, e6.1, depth) + Section(e7.0, e7.1, depth) + Section(e8.0, e8.1, depth) by {
      MarkdownOfFour(e5, e6, e7, e8, depth);
    }
  }

  /** A dict whose first key is a string `Title` renders as a level-one
      heading with that title first. */
  lemma MarkdownTitleFirst(fields: seq<(string, Value)>, depth: int)
    requires |fields| > 0 && fields[0].0 == "Title" && fields[0].1.Str?
    ensures StartsWith(Markdown(Obj(fields), depth), "# " + fields[0].1.s + "\n\n")
  {
    var head := "# " + fields[0].1.s + "\n\n";
    assert fields == [fields[0]] + fields[1..];
    MarkdownOfConcat([fields[0]], fields[1..], depth);
    MarkdownOfSmallObjects(fields[0].0, fields[0].1, depth);
    SectionShapes(fields[0].0, fields[0].1, depth);
    var md := Markdown(Obj(fields), depth);
    assert md == head + Markdown(Obj(fields[1..]), depth);
    assert md[..|head|] == head;
  }

  /** The shape of each kind of section: a list gets a heading at `depth`
      and bullet items (an empty list leaves a lone `- `), a nested dict
      gets a heading at `depth` and renders one level deeper, a scalar
      `Title` is a level-one heading at every depth, any other scalar is a
      heading at `depth` followed by its text. */
  lemma SectionShapes(key: string, value: Value, depth: int)
    ensures value == List([]) ==> Section(key, value, depth) == Hashes(depth) + " " + key + "\n\n- \n\n"
    ensures value.Obj? ==> Section(key, value, depth) == Hashes(depth) + " " + key + "\n\n" + Markdown(value, depth + 1)
    ensures !value.List? && !value.Obj? && key == "Title" ==> Section(key, value, depth) == "# " + Show(value) + "\n\n"
    ensures !value.List? && !value.Obj? && key != "Title" ==>
              Section(key, value, depth) == Hashes(depth) + " " + key + "\n\n" + Show(value) + "\n\n"
  {
    if value == List([]) {
      assert Join([], "\n- ") == "";
    }
  }
}
