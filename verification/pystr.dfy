/** The handful of Python `str` methods the modelled code relies on:
    `startswith`, `endswith`, `find`, `split`, `strip`/`rstrip`, `lower`,
    `join`, `str(int)` and `int(str)`. */
module PyStr {
  import opened Wrappers

  /** Python's `str.isspace` for one character (the Unicode White_Space
      characters Python recognises). */
  predicate IsSpace(c: char) {
    || c == ' ' || c == '\t' || c == '\n' || c == '\r'
    || c == '\U{000B}' || c == '\U{000C}'
    || ('\U{001C}' <= c <= '\U{001F}')
    || c == '\U{0085}' || c == '\U{00A0}' || c == '\U{1680}'
    || ('\U{2000}' <= c <= '\U{200A}')
    || c == '\U{2028}' || c == '\U{2029}' || c == '\U{202F}' || c == '\U{205F}'
    || c == '\U{3000}'
  }

  predicate AllSpace(s: string) {
    forall i :: 0 <= i < |s| ==> IsSpace(s[i])
  }

  predicate IsDigit(c: char) { '0' <= c <= '9' }

  predicate StartsWith(s: string, p: string) {
    |p| <= |s| && s[..|p|] == p
  }

  predicate EndsWith(s: string, p: string) {
    |p| <= |s| && s[|s| - |p|..] == p
  }

  /** `t` occurs in `s` starting at index `j`. */
  predicate OccursAt(s: string, t: string, j: int) {
    0 <= j && j + |t| <= |s| && s[j..j + |t|] == t
  }

  ghost predicate Contains(s: string, t: string) {
    exists j :: OccursAt(s, t, j)
  }

  /** Python's `s.find(t)`: the first index where `t` occurs, or -1. */
  function Find(s: string, t: string): (r: int)
    ensures -1 <= r <= |s|
    ensures r >= 0 ==> OccursAt(s, t, r)
    ensures r >= 0 ==> forall j :: 0 <= j < r ==> !OccursAt(s, t, j)
    ensures r == -1 <==> !Contains(s, t)
    decreases |s|
  {
    if |s| < |t| then
      assert forall j :: !OccursAt(s, t, j);
      -1
    else if s[..|t|] == t then
      assert OccursAt(s, t, 0);
      0
    else
      var r := Find(s[1..], t);
      ShiftOccurrence(s, t);
      assert s[0..|t|] == s[..|t|];
      if r < 0 then -1 else r + 1
  }

  /** Occurrences in `s[1..]` are occurrences in `s` shifted by one. */
  lemma ShiftOccurrence(s: string, t: string)
    requires |s| > 0
    ensures forall j :: 1 <= j ==> (OccursAt(s[1..], t, j - 1) <==> OccursAt(s, t, j))
    ensures !OccursAt(s, t, 0) ==> (Contains(s, t) <==> Contains(s[1..], t))
  {
    forall j | 1 <= j
      ensures OccursAt(s[1..], t, j - 1) <==> OccursAt(s, t, j)
    {
      if j + |t| <= |s| {
        assert s[1..][j - 1..j - 1 + |t|] == s[j..j + |t|];
      }
    }
    if !OccursAt(s, t, 0) && Contains(s, t) {
      var j :| OccursAt(s, t, j);
      assert j >= 1;
      assert OccursAt(s[1..], t, j - 1);
    }
    if Contains(s[1..], t) {
      var j :| OccursAt(s[1..], t, j);
      assert OccursAt(s, t, j + 1);
    }
  }

  /** Python's `s.split(sep)` for a non-empty separator. */
  function Split(s: string, sep: string): (parts: seq<string>)
    requires |sep| > 0
    ensures |parts| >= 1
    ensures !Contains(s, sep) ==> parts == [s]
    decreases |s|
  {
    var i := Find(s, sep);
    if i < 0 then [s] else [s[..i]] + Split(s[i + |sep|..], sep)
  }

  function RStrip(s: string): (r: string)
    ensures |r| <= |s| && r == s[..|r|]
    ensures |r| > 0 ==> !IsSpace(r[|r| - 1])
    ensures AllSpace(s[|r|..])
    decreases |s|
  {
    if |s| > 0 && IsSpace(s[|s| - 1]) then
      var r := RStrip(s[..|s| - 1]);
      assert s[|r|..] == s[..|s| - 1][|r|..] + [s[|s| - 1]];
      r
    else s
  }

  function LStrip(s: string): (r: string)
    ensures |r| <= |s| && r == s[|s| - |r|..]
    ensures |r| > 0 ==> !IsSpace(r[0])
    ensures AllSpace(s[..|s| - |r|])
    decreases |s|
  {
    if |s| > 0 && IsSpace(s[0]) then
      var r := LStrip(s[1..]);
      assert s[..|s| - |r|] == [s[0]] + s[1..][..|s| - 1 - |r|];
      r
    else s
  }

  function Strip(s: string): string {
    LStrip(RStrip(s))
  }

  /** Python's `str.lower` on the ASCII range; other characters are kept. */
  function Lower(s: string): (r: string)
    ensures |r| == |s|
  {
    seq(|s|, i requires 0 <= i < |s| =>
      if 'A' <= s[i] <= 'Z' then (s[i] as int + 32) as char else s[i])
  }

  /** `sep.join(parts)`. */
  function Join(parts: seq<string>, sep: string): string
    decreases |parts|
  {
    if |parts| == 0 then ""
    else if |parts| == 1 then parts[0]
    else Join(parts[..|parts| - 1], sep) + sep + parts[|parts| - 1]
  }

  function DigitChar(d: nat): char
    requires d < 10
  {
    ('0' as int + d) as char
  }

  function DigitValue(c: char): nat
    requires IsDigit(c)
  {
    c as int - '0' as int
  }

  /** `str(n)` for a non-negative integer. */
  function NatToString(n: nat): (s: string)
    ensures |s| > 0
    ensures forall i :: 0 <= i < |s| ==> IsDigit(s[i])
    decreases n
  {
    if n < 10 then [DigitChar(n)] else NatToString(n / 10) + [DigitChar(n % 10)]
  }

  /** `str(n)` for any integer. */
  function IntToString(n: int): (s: string)
    ensures |s| > 0
    ensures forall i :: 0 <= i < |s| ==> IsDigit(s[i]) || (i == 0 && s[i] == '-')
  {
    if n < 0 then "-" + NatToString(-n) else NatToString(n)
  }

  /** A run of decimal digits in which single underscores may separate
      digits, as Python's `int()` accepts. */
  predicate DigitRun(r: string) {
    && |r| > 0
    && IsDigit(r[0])
    && IsDigit(r[|r| - 1])
    && (forall i :: 0 <= i < |r| ==> IsDigit(r[i]) || r[i] == '_')
    && (forall i :: 0 <= i < |r| - 1 ==> r[i] == '_' ==> r[i + 1] != '_')
  }

  /** The value of a digit run, underscores ignored. */
  function RunValue(r: string): nat
    requires forall i :: 0 <= i < |r| ==> IsDigit(r[i]) || r[i] == '_'
    decreases |r|
  {
    if |r| == 0 then 0
    else if r[|r| - 1] == '_' then RunValue(r[..|r| - 1])
    else 10 * RunValue(r[..|r| - 1]) + DigitValue(r[|r| - 1])
  }

  /** Python's `int(s)` in base 10: surrounding whitespace, an optional
      sign, then a digit run; anything else raises ValueError. */
  function ParseInt(s: string): (r: Result<int>)
    ensures r.Ok? ==> |Strip(s)| > 0
  {
    var t := Strip(s);
    var negative := |t| > 0 && t[0] == '-';
    var body := if |t| > 0 && (t[0] == '-' || t[0] == '+') then t[1..] else t;
    if DigitRun(body) then
      Ok(if negative then -(RunValue(body) as int) else RunValue(body) as int)
    else
      Err(ValueError("invalid literal for int() with base 10"))
  }

  lemma {:induction false} RunValueOfNatToString(n: nat)
    ensures RunValue(NatToString(n)) == n
    decreases n
  {
    if n >= 10 {
      var s := NatToString(n);
      assert s[..|s| - 1] == NatToString(n / 10);
      RunValueOfNatToString(n / 10);
    }
  }

  lemma StripDigitsNewline(d: string)
    requires |d| > 0
    requires forall i :: 0 <= i < |d| ==> IsDigit(d[i]) || d[i] == '-'
    ensures Strip(d + "\n") == d
  {
    var s := d + "\n";
    assert RStrip(s[..|s| - 1]) == d by { assert s[..|s| - 1] == d; }
    assert RStrip(s) == d;
  }

  /** `int(str(n)) == n`, also with a trailing newline as the decision
      parser sees it after splitting. */
  lemma ParseIntOfIntToString(n: int)
    ensures ParseInt(IntToString(n)) == Ok(n)
  {
    var s := IntToString(n);
    assert Strip(s) == s by { StripPlain(s); }
    if n < 0 {
      assert s[1..] == NatToString(-n);
      RunValueOfNatToString(-n);
    } else {
      RunValueOfNatToString(n);
    }
  }

  lemma StripPlain(s: string)
    requires forall i :: 0 <= i < |s| ==> !IsSpace(s[i])
    ensures Strip(s) == s
  {
  }

  /** Python's `s[start:stop]`: negative bounds count from the end, both
      bounds are clamped to the string, an empty range gives "". */
  function Slice(s: string, start: int, stop: int): (r: string)
    ensures |r| <= |s|
  {
    var a := SliceBound(|s|, start);
    var b := SliceBound(|s|, stop);
    if a >= b then "" else s[a..b]
  }

  function SliceBound(len: nat, i: int): (b: nat)
    ensures b <= len
  {
    if i < 0 then (if i + len < 0 then 0 else i + len) else if i > len then len else i
  }

  /** A leading space makes no difference to `strip()`. */
  lemma StripLeadingSpace(x: string)
    ensures Strip(" " + x) == Strip(x)
  {
    RStripLeadingSpace(x);
    var r := RStrip(x);
    if r != "" {
      assert (" " + r)[1..] == r;
    }
  }

  lemma {:induction false} RStripLeadingSpace(x: string)
    ensures RStrip(" " + x) == if RStrip(x) == "" then "" else " " + RStrip(x)
    decreases |x|
  {
    var s := " " + x;
    if |x| == 0 {
      assert s[..|s| - 1] == "";
    } else if IsSpace(x[|x| - 1]) {
      assert s[..|s| - 1] == " " + x[..|x| - 1];
      RStripLeadingSpace(x[..|x| - 1]);
    }
  }

  /** `t` never occurs overlapping itself: no proper suffix of `t` is also
      a prefix of it. */
  predicate Borderless(t: string) {
    forall k :: 0 < k < |t| ==> t[k..] != t[..|t| - k]
  }

  /** A string whose first character appears nowhere else is borderless. */
  lemma FirstCharUnique(t: string)
    requires |t| > 0 && forall k :: 0 < k < |t| ==> t[k] != t[0]
    ensures Borderless(t)
  {
    forall k | 0 < k < |t| ensures t[k..] != t[..|t| - k] {
      assert t[k..][0] == t[k];
    }
  }

  /** In `a + t + b`, where `a` does not contain the borderless `t`, the
      first occurrence of `t` is the one right after `a`. */
  lemma FindAfterClean(a: string, t: string, b: string)
    requires |t| > 0 && Borderless(t) && !Contains(a, t)
    ensures Find(a + t + b, t) == |a|
  {
    var s := a + t + b;
    assert s[|a|..|a| + |t|] == t;
    assert OccursAt(s, t, |a|);
    forall j | 0 <= j < |a| ensures !OccursAt(s, t, j) {
      if j + |t| <= |a| {
        assert s[j..j + |t|] == a[j..j + |t|];
        assert !OccursAt(a, t, j);
      } else {
        var k := |a| - j;
        assert t[k..] != t[..|t| - k];
        var i :| 0 <= i < |t| - k && t[k..][i] != t[..|t| - k][i];
        assert s[j + k + i] == t[i];
        assert s[j..j + |t|][k + i] == s[j + k + i];
      }
    }
    var r := Find(s, t);
    assert r >= 0;
  }

  /** Splitting `a + sep + b`, where the first separator is the one after
      `a`, gives `a` and then the pieces of `b`. */
  lemma SplitAt(a: string, sep: string, b: string)
    requires |sep| > 0 && Find(a + sep + b, sep) == |a|
    ensures Split(a + sep + b, sep) == [a] + Split(b, sep)
  {
    var s := a + sep + b;
    assert s[..|a|] == a;
    assert s[|a| + |sep|..] == b;
  }

  /** `sep.join(parts)` with a first part split off. */
  lemma {:induction false} JoinCons(a: string, rest: seq<string>, sep: string)
    requires |rest| > 0
    ensures Join([a] + rest, sep) == a + sep + Join(rest, sep)
    decreases |rest|
  {
    var p := [a] + rest;
    if |rest| == 1 {
      assert p[..|p| - 1] == [a];
    } else {
      assert p[..|p| - 1] == [a] + rest[..|rest| - 1];
      JoinCons(a, rest[..|rest| - 1], sep);
    }
  }

  /** `sep.join(s.split(sep)) == s`: splitting loses nothing. */
  lemma {:induction false} SplitJoin(s: string, sep: string)
    requires |sep| > 0
    ensures Join(Split(s, sep), sep) == s
    decreases |s|
  {
    var i := Find(s, sep);
    if i >= 0 {
      var head := s[..i];
      var rest := s[i + |sep|..];
      var pieces := Split(rest, sep);
      SplitUnfold(s, sep);
      assert Split(s, sep) == [head] + pieces;
      SplitJoin(rest, sep);
      assert Join(pieces, sep) == rest;
      JoinCons(head, pieces, sep);
      assert Join(Split(s, sep), sep) == head + sep + rest;
      SplitParts(s, i, sep);
    }
  }

  lemma SplitParts(s: string, i: nat, sep: string)
    requires OccursAt(s, sep, i)
    ensures s == s[..i] + sep + s[i + |sep|..]
  {
  }

  lemma SplitUnfold(s: string, sep: string)
    requires |sep| > 0 && Find(s, sep) >= 0
    ensures Split(s, sep) == [s[..Find(s, sep)]] + Split(s[Find(s, sep) + |sep|..], sep)
  {
  }

  /** The first piece of a split is the text before the first separator,
      and contains no separator. */
  lemma SplitFirstPiece(s: string, sep: string)
    requires |sep| > 0
    ensures StartsWith(s, Split(s, sep)[0])
    ensures !Contains(Split(s, sep)[0], sep)
    ensures Contains(s, sep) ==> |Split(s, sep)| >= 2 && OccursAt(s, sep, |Split(s, sep)[0]|)
    ensures !Contains(s, sep) ==> Split(s, sep) == [s]
  {
    var i := Find(s, sep);
    if i >= 0 {
      var p := s[..i];
      assert Split(s, sep)[0] == p;
      if Contains(p, sep) {
        var j :| OccursAt(p, sep, j);
        assert s[j..j + |sep|] == p[j..j + |sep|];
        assert OccursAt(s, sep, j);
        assert false;
      }
    }
  }
}
