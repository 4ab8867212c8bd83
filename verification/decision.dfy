/** The decision a role's model returns, `STATE: <n>` followed by
    `RESPONSE: <text>`, and its parser `extract_state_info` of
    `aipreneuros/roles/role.py`. */
module Decision {
  import opened Wrappers
  import opened PyStr

  const StateMarker := "STATE: "
  const ResponseMarker := "RESPONSE: "

  /** `extract_state_info(s)`: the text between the first and the second
      `RESPONSE: ` is the response; the text between the first and the
      second `STATE: ` before it, stripped, is the state number. A missing
      marker is an IndexError and a state that is not an integer a
      ValueError. */
  function ExtractStateInfo(input: string): (r: Result<(string, int)>)
    ensures !Contains(input, ResponseMarker) ==> r == Err(IndexError)
    ensures r.Ok? ==> Contains(input, ResponseMarker)
  {
    var response := Split(input, ResponseMarker);
    if |response| < 2 then Err(IndexError)
    else
      var parts := Split(response[0], StateMarker);
      if |parts| < 2 then Err(IndexError)
      else
        var state :- ParseInt(Strip(parts[1]));
        Ok((response[1], state))
  }

  /** What a parsed decision's response is: the text after the first
      response marker, up to the next one or the end. */
  lemma ExtractStateInfoResponse(input: string)
    requires ExtractStateInfo(input).Ok?
    ensures Contains(input, ResponseMarker)
    ensures var rest := input[Find(input, ResponseMarker) + |ResponseMarker|..];
            var rsp := ExtractStateInfo(input).value.0;
            StartsWith(rest, rsp) && !Contains(rsp, ResponseMarker) &&
            (rsp == rest || OccursAt(rest, ResponseMarker, |rsp|))
  {
    var response := Split(input, ResponseMarker);
    assert ExtractStateInfo(input).value.0 == response[1];
    var i := Find(input, ResponseMarker);
    assert i >= 0;
    var rest := input[i + |ResponseMarker|..];
    assert response == [input[..i]] + Split(rest, ResponseMarker) by {
      SplitUnfold(input, ResponseMarker);
    }
    SplitFirstPiece(rest, ResponseMarker);
  }

  /** A decision needs a state marker before the first response marker. */
  lemma ExtractStateInfoNeedsState(input: string)
    requires Contains(input, ResponseMarker)
    ensures ExtractStateInfo(input).Ok? ==> Contains(input[..Find(input, ResponseMarker)], StateMarker)
    ensures !Contains(input[..Find(input, ResponseMarker)], StateMarker) ==> ExtractStateInfo(input) == Err(IndexError)
  {
    var response := Split(input, ResponseMarker);
    var i := Find(input, ResponseMarker);
    assert response[0] == input[..i] by {
      SplitUnfold(input, ResponseMarker);
    }
    SplitFirstPiece(input, ResponseMarker);
    assert |response| >= 2;
    SplitFirstPiece(response[0], StateMarker);
  }

  /** The decision text for a state and a response, after any preamble. */
  function DecisionText(preamble: string, state: int, response: string): string {
    DecisionHead(preamble, state) + ResponseMarker + response
  }

  function DecisionHead(preamble: string, state: int): string {
    preamble + StateMarker + (IntToString(state) + "\n")
  }

  lemma MarkersBorderless()
    ensures Borderless(StateMarker) && Borderless(ResponseMarker)
  {
    FirstCharUnique(StateMarker);
    FirstCharUnique(ResponseMarker);
  }

  /** A number, a newline and the state marker contain no `R`, so the
      response marker cannot start among them; nor can it start in a
      preamble free of it and run on into the state marker, whose `ST` no
      `S` of the response marker is followed by. */
  lemma NoResponseMarkerBeforeResponse(preamble: string, state: int)
    requires !Contains(preamble, ResponseMarker)
    ensures !Contains(DecisionHead(preamble, state), ResponseMarker)
  {
    var tail := StateMarker + (IntToString(state) + "\n");
    assert DecisionHead(preamble, state) == preamble + tail;
    TailHasNoR(state);
    forall j | 0 <= j ensures !OccursAt(preamble + tail, ResponseMarker, j) {
      NoMarkerAt(preamble, tail, j);
    }
  }

  /** The state marker, a number and a newline hold no `R`. */
  lemma TailHasNoR(state: int)
    ensures var tail := StateMarker + (IntToString(state) + "\n");
            forall k :: 0 <= k < |tail| ==> tail[k] != 'R'
  {
    var tail := StateMarker + (IntToString(state) + "\n");
    forall k | 0 <= k < |tail| ensures tail[k] != 'R' {
      if k >= |StateMarker| {
        assert tail[k] == (IntToString(state) + "\n")[k - |StateMarker|];
      }
    }
  }

  /** The response marker starts nowhere in a preamble free of it
      followed by a text without `R` that starts with `ST`. */
  lemma NoMarkerAt(preamble: string, tail: string, j: nat)
    requires !Contains(preamble, ResponseMarker)
    requires |tail| >= 2 && tail[0] == 'S' && tail[1] == 'T'
    requires forall k :: 0 <= k < |tail| ==> tail[k] != 'R'
    ensures !OccursAt(preamble + tail, ResponseMarker, j)
  {
    var a := preamble + tail;
    var m := ResponseMarker;
    if j + |m| <= |a| {
      if j + |m| <= |preamble| {
        assert a[j..j + |m|] == preamble[j..j + |m|];
        assert !OccursAt(preamble, m, j);
      } else if j >= |preamble| {
        assert a[j..j + |m|][0] == tail[j - |preamble|];
      } else {
        var k := |preamble| - j;
        assert a[|preamble|] == 'S' && a[|preamble| + 1] == 'T';
        assert a[j..j + |m|][k] == 'S';
        if k == 2 || k == 7 {
          assert a[j..j + |m|][k + 1] == 'T';
        }
      }
    }
  }

  lemma NoStateMarkerInNumber(state: int)
    ensures !Contains(IntToString(state) + "\n", StateMarker)
  {
    var d := IntToString(state) + "\n";
    forall j | 0 <= j ensures !OccursAt(d, StateMarker, j) {
      if j + |StateMarker| <= |d| {
        assert d[j..j + |StateMarker|][0] == d[j];
      }
    }
  }

  /** Round trip: a decision written after a preamble free of both
      markers, with a response free of the response marker, parses back to
      that response and that state. */
  lemma ExtractStateInfoRoundTrip(preamble: string, state: int, response: string)
    requires !Contains(preamble, StateMarker) && !Contains(preamble, ResponseMarker)
    requires !Contains(response, ResponseMarker)
    ensures ExtractStateInfo(DecisionText(preamble, state, response)) == Ok((response, state))
  {
    var head := DecisionHead(preamble, state);
    var text := DecisionText(preamble, state, response);
    var number := IntToString(state) + "\n";
    assert Split(text, ResponseMarker) == [head, response] by {
      NoResponseMarkerBeforeResponse(preamble, state);
      MarkersBorderless();
      FindAfterClean(head, ResponseMarker, response);
      SplitAt(head, ResponseMarker, response);
    }
    assert Split(head, StateMarker) == [preamble, number] by {
      HeadSplits(preamble, state);
    }
    assert ParseInt(Strip(number)) == Ok(state) by {
      NumberLineParses(state);
    }
    ExtractFromPieces(text, head, response, number);
  }

  /** The parse is fixed by the two splits: the response is the second
      piece at the response marker, and the state is the stripped second
      piece of the first one at the state marker. */
  lemma ExtractFromPieces(input: string, head: string, rsp: string, line: string)
    requires |Split(input, ResponseMarker)| >= 2
    requires Split(input, ResponseMarker)[0] == head && Split(input, ResponseMarker)[1] == rsp
    requires |Split(head, StateMarker)| >= 2 && Split(head, StateMarker)[1] == line
    ensures ParseInt(Strip(line)).Err? ==> ExtractStateInfo(input) == Err(ParseInt(Strip(line)).error)
    ensures ParseInt(Strip(line)).Ok? ==> ExtractStateInfo(input) == Ok((rsp, ParseInt(Strip(line)).value))
  {
  }

  /** The head of a decision splits at its state marker into the preamble
      and the number line. */
  lemma HeadSplits(preamble: string, state: int)
    requires !Contains(preamble, StateMarker)
    ensures Split(DecisionHead(preamble, state), StateMarker) == [preamble, IntToString(state) + "\n"]
  {
    var number := IntToString(state) + "\n";
    MarkersBorderless();
    FindAfterClean(preamble, StateMarker, number);
    SplitAt(preamble, StateMarker, number);
    NoStateMarkerInNumber(state);
  }

  /** The number line strips to a parsable number: the state itself. */
  lemma NumberLineParses(state: int)
    ensures ParseInt(Strip(IntToString(state) + "\n")) == Ok(state)
  {
    var d := IntToString(state);
    assert Strip(d + "\n") == d by {
      StripDigitsNewline(d);
    }
    assert ParseInt(d) == Ok(state) by {
      ParseIntOfIntToString(state);
    }
  }

  /** The response is cut at a second response marker: only the text up to
      it is returned. */
  lemma ExtractStateInfoSecondResponse(state: int, first: string, second: string)
    requires !Contains(first, ResponseMarker)
    ensures ExtractStateInfo(DecisionText("", state, first + ResponseMarker + second)) == Ok((first, state))
  {
    var head := DecisionHead("", state);
    var response := first + ResponseMarker + second;
    var text := DecisionText("", state, response);
    SecondResponseSplit(state, first, second);
    var number := IntToString(state) + "\n";
    assert Split(head, StateMarker) == ["", number] by {
      assert !Contains("", StateMarker);
      HeadSplits("", state);
    }
    assert ParseInt(Strip(number)) == Ok(state) by {
      NumberLineParses(state);
    }
    ExtractFromPieces(text, head, first, number);
  }

  /** A decision whose response holds a second response marker splits
      first into the head and then the text before that marker. */
  lemma SecondResponseSplit(state: int, first: string, second: string)
    requires !Contains(first, ResponseMarker)
    ensures var pieces := Split(DecisionText("", state, first + ResponseMarker + second), ResponseMarker);
            |pieces| >= 2 && pieces[0] == DecisionHead("", state) && pieces[1] == first
  {
    var head := DecisionHead("", state);
    var response := first + ResponseMarker + second;
    MarkersBorderless();
    assert Split(head + ResponseMarker + response, ResponseMarker) == [head] + Split(response, ResponseMarker) by {
      assert !Contains("", ResponseMarker);
      NoResponseMarkerBeforeResponse("", state);
      FindAfterClean(head, ResponseMarker, response);
      SplitAt(head, ResponseMarker, response);
    }
    assert Split(response, ResponseMarker) == [first] + Split(second, ResponseMarker) by {
      FindAfterClean(first, ResponseMarker, second);
      SplitAt(first, ResponseMarker, second);
    }
    assert DecisionText("", state, response) == head + ResponseMarker + response;
  }

  /** A reply without the response marker has no decision. */
  lemma ExtractStateInfoNoResponse()
    ensures ExtractStateInfo("STATE: 1") == Err(IndexError)
  {
    assert forall j :: !OccursAt("STATE: 1", ResponseMarker, j);
  }

  /** A response marker with no state marker before it has no decision. */
  lemma ExtractStateInfoNoState(response: string)
    ensures ExtractStateInfo(ResponseMarker + response) == Err(IndexError)
  {
    MarkersBorderless();
    assert !Contains("", ResponseMarker);
    FindAfterClean("", ResponseMarker, response);
    assert "" + ResponseMarker + response == ResponseMarker + response;
    SplitAt("", ResponseMarker, response);
    assert !Contains("", StateMarker);
  }

  /** The parse of any reply shaped like a decision: a preamble free of
      both markers, the state marker, a state text free of both markers,
      the response marker and a response free of it. It succeeds iff the
      stripped state text is an integer, giving that response and that
      number; otherwise it raises the ValueError of `int()`. */
  lemma ExtractStateInfoStateText(preamble: string, s: string, response: string)
    requires !Contains(preamble, StateMarker) && !Contains(preamble, ResponseMarker)
    requires !Contains(s, StateMarker) && !Contains(s, ResponseMarker)
    requires !Contains(response, ResponseMarker)
    ensures var r := ExtractStateInfo(preamble + StateMarker + s + ResponseMarker + response);
            (r.Ok? <==> ParseInt(Strip(s)).Ok?) &&
            (r.Ok? ==> r.value == (response, ParseInt(Strip(s)).value)) &&
            (r.Err? ==> r.error == ParseInt(Strip(s)).error)
  {
    var head := preamble + StateMarker + s;
    var text := head + ResponseMarker + response;
    MarkersBorderless();
    assert Split(text, ResponseMarker) == [head, response] by {
      NoResponseMarkerInHead(preamble, s);
      FindAfterClean(head, ResponseMarker, response);
      SplitAt(head, ResponseMarker, response);
    }
    assert Split(head, StateMarker) == [preamble, s] by {
      FindAfterClean(preamble, StateMarker, s);
      SplitAt(preamble, StateMarker, s);
    }
    ExtractFromPieces(text, head, response, s);
  }

  /** The response marker does not occur in a preamble, the state marker
      and a state text when it occurs in neither text. */
  lemma NoResponseMarkerInHead(preamble: string, s: string)
    requires !Contains(preamble, ResponseMarker) && !Contains(s, ResponseMarker)
    ensures !Contains(preamble + StateMarker + s, ResponseMarker)
  {
    var tail := StateMarker + s;
    assert preamble + StateMarker + s == preamble + tail;
    StateTextFree(s);
    forall j | 0 <= j ensures !OccursAt(preamble + tail, ResponseMarker, j) {
      NoMarkerAcross(preamble, tail, j);
    }
  }

  /** Nor in the state marker followed by such a text. */
  lemma StateTextFree(s: string)
    requires !Contains(s, ResponseMarker)
    ensures !Contains(StateMarker + s, ResponseMarker)
  {
    var t := StateMarker + s;
    var m := ResponseMarker;
    forall j | 0 <= j ensures !OccursAt(t, m, j) {
      if j + |m| <= |t| {
        if j < |StateMarker| {
          assert t[j..j + |m|][0] == t[j] == StateMarker[j];
        } else {
          assert t[j..j + |m|] == s[j - |StateMarker|..j - |StateMarker| + |m|];
          assert !OccursAt(s, m, j - |StateMarker|);
        }
      }
    }
  }

  /** The response marker starts nowhere in two texts free of it when the
      second starts with `ST`: no `S` of the marker is followed by `T`. */
  lemma NoMarkerAcross(preamble: string, tail: string, j: nat)
    requires !Contains(preamble, ResponseMarker) && !Contains(tail, ResponseMarker)
    requires |tail| >= 2 && tail[0] == 'S' && tail[1] == 'T'
    ensures !OccursAt(preamble + tail, ResponseMarker, j)
  {
    var a := preamble + tail;
    var m := ResponseMarker;
    if j + |m| <= |a| {
      if j + |m| <= |preamble| {
        assert a[j..j + |m|] == preamble[j..j + |m|];
        assert !OccursAt(preamble, m, j);
      } else if j >= |preamble| {
        assert a[j..j + |m|] == tail[j - |preamble|..j - |preamble| + |m|];
        assert !OccursAt(tail, m, j - |preamble|);
      } else {
        var k := |preamble| - j;
        assert a[|preamble|] == 'S' && a[|preamble| + 1] == 'T';
        assert a[j..j + |m|][k] == 'S';
        if k == 2 || k == 7 {
          assert a[j..j + |m|][k + 1] == 'T';
        }
      }
    }
  }
}
