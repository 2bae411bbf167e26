/** `filter_build_output`: what part of the build transcript (the lines of
    standard output, then those of standard error) is handed back. */
module OutputFilter {
  import opened Wrappers
  import opened Strings

  /** The `output_filter` parameter. */
  datatype Mode = All | ErrorsOnly | WarningsOnly | ErrorsAndWarnings | StringMatch

  /** In `All` mode, at most this many transcript lines are returned. */
  const MaxLines: nat := 200

  const StringMatchRequired := "filter_string is required when output_filter is 'string_match'"

  /** The line mentions `error:`, in any letter case. */
  predicate MentionsError(line: string) {
    Contains(ToLower(line), "error:")
  }

  /** The line mentions `warning:`, in any letter case. */
  predicate MentionsWarning(line: string) {
    Contains(ToLower(line), "warning:")
  }

  /** Whether a filtering mode keeps `line`; `pattern` is the match string. */
  predicate Keeps(mode: Mode, pattern: string, line: string) {
    match mode
    case All => true
    case ErrorsOnly => MentionsError(line)
    case WarningsOnly => MentionsWarning(line)
    case ErrorsAndWarnings => MentionsError(line) || MentionsWarning(line)
    case StringMatch => Contains(ToLower(line), ToLower(pattern))
  }

  /** The list comprehension: the lines the mode keeps, in order. */
  function Kept(lines: seq<string>, mode: Mode, pattern: string): seq<string> {
    if lines == [] then []
    else (if Keeps(mode, pattern, lines[0]) then [lines[0]] else []) + Kept(lines[1..], mode, pattern)
  }

  /** The first line of a truncated transcript. */
  function TruncationHeader(total: nat): string {
    "[Output truncated - showing last " + NatToString(MaxLines) + " lines of " + NatToString(total) + " total lines]"
  }

  /** The lines `All` mode returns: the transcript itself, or, when it is
      longer than `MaxLines`, a header, a blank line and its last lines. */
  function Truncated(lines: seq<string>): seq<string> {
    if |lines| > MaxLines then [TruncationHeader(|lines|), ""] + lines[|lines| - MaxLines..]
    else lines
  }

  /** The lines `filter_build_output` selects before joining them. */
  function Selected(lines: seq<string>, mode: Mode, pattern: string): seq<string> {
    if mode == All then Truncated(lines) else Kept(lines, mode, pattern)
  }

  /** The text returned in place of an empty selection. */
  function Placeholder(mode: Mode, pattern: string): string {
    match mode
    case ErrorsOnly => "No errors found"
    case WarningsOnly => "No warnings found"
    case ErrorsAndWarnings => "No errors or warnings found"
    case StringMatch => "No lines matching '" + pattern + "' found"
    case All => "No output"
  }

  /** `filter_build_output(lines, mode, filter_string)`. */
  function FilterBuildOutput(lines: seq<string>, mode: Mode, filter: Option<string>): (r: Result<string, string>)
    ensures r.Failure? <==> mode == StringMatch && !Truthy(filter)
    ensures r.Failure? ==> r.error == StringMatchRequired
  {
    if mode == StringMatch && !Truthy(filter) then Failure(StringMatchRequired)
    else
      var pattern := if filter.Some? then filter.value else "";
      var selected := Selected(lines, mode, pattern);
      if selected == [] then Success(Placeholder(mode, pattern)) else Success(Join(selected, "\n"))
  }

  // ---------------------------------------------------------------------
  // The filtering modes

  /** `xs` is `ys` with some elements left out, the rest in their order. */
  predicate SubsequenceOf(xs: seq<string>, ys: seq<string>)
    decreases |ys|
  {
    xs == [] ||
    (ys != [] && ((xs[0] == ys[0] && SubsequenceOf(xs[1..], ys[1..])) || SubsequenceOf(xs, ys[1..])))
  }

  /** The kept lines are the transcript's lines the mode keeps, each where
      it was relative to the others. */
  lemma {:induction false} KeptSpec(lines: seq<string>, mode: Mode, pattern: string)
    ensures SubsequenceOf(Kept(lines, mode, pattern), lines)
    ensures forall line :: line in Kept(lines, mode, pattern) <==> line in lines && Keeps(mode, pattern, line)
    decreases |lines|
  {
    if lines != [] {
      KeptSpec(lines[1..], mode, pattern);
      var rest := Kept(lines[1..], mode, pattern);
      if Keeps(mode, pattern, lines[0]) {
        var xs := [lines[0]] + rest;
        assert xs[0] == lines[0] && xs[1..] == rest;
        assert Kept(lines, mode, pattern) == xs;
        assert SubsequenceOf(xs, lines);
      } else {
        assert Kept(lines, mode, pattern) == rest;
        if rest != [] {
          assert SubsequenceOf(rest, lines);
        }
      }
      assert lines == [lines[0]] + lines[1..];
    }
  }

  /** Filtering two stretches of transcript one after the other is filtering
      the whole. */
  lemma {:induction false} KeptAppend(a: seq<string>, b: seq<string>, mode: Mode, pattern: string)
    ensures Kept(a + b, mode, pattern) == Kept(a, mode, pattern) + Kept(b, mode, pattern)
    decreases |a|
  {
    if a == [] {
      assert a + b == b;
    } else {
      assert (a + b)[0] == a[0];
      assert (a + b)[1..] == a[1..] + b;
      KeptAppend(a[1..], b, mode, pattern);
    }
  }

  /** A line kept by any mode other than `All` is not blank: it holds the
      token or the match string, which are not empty. */
  lemma KeptNotEmpty(line: string, mode: Mode, pattern: string)
    requires mode != All && (mode == StringMatch ==> pattern != [])
    requires Keeps(mode, pattern, line)
    ensures line != []
  {
    var token := match mode
      case ErrorsOnly => "error:"
      case WarningsOnly => "warning:"
      case ErrorsAndWarnings => if MentionsError(line) then "error:" else "warning:"
      case StringMatch => ToLower(pattern)
      case All => "";
    assert Contains(ToLower(line), token);
    ContainsIff(ToLower(line), token);
  }

  /** Which filter modes keep which lines, as `filter_build_output` returns
      them: the kept lines joined, or the mode's placeholder if none is. */
  lemma FilteredModes(lines: seq<string>, mode: Mode, filter: Option<string>)
    requires mode != All
    requires mode == StringMatch ==> Truthy(filter)
    ensures var pattern := if filter.Some? then filter.value else "";
      var kept := Kept(lines, mode, pattern);
      FilterBuildOutput(lines, mode, filter) ==
        if kept == [] then Success(Placeholder(mode, pattern)) else Success(Join(kept, "\n"))
  {
  }

  /** When the mode keeps no line, nothing is kept. */
  lemma {:induction false} KeptNone(lines: seq<string>, mode: Mode, pattern: string)
    requires forall i :: 0 <= i < |lines| ==> !Keeps(mode, pattern, lines[i])
    ensures Kept(lines, mode, pattern) == []
    decreases |lines|
  {
    if lines != [] {
      assert forall i :: 0 <= i < |lines[1..]| ==> lines[1..][i] == lines[i + 1];
      KeptNone(lines[1..], mode, pattern);
    }
  }

  /** With no line mentioning `error:`, the errors-only mode answers
      "No errors found". */
  lemma NoErrorsFound(lines: seq<string>, filter: Option<string>)
    requires forall i :: 0 <= i < |lines| ==> !MentionsError(lines[i])
    ensures FilterBuildOutput(lines, ErrorsOnly, filter) == Success("No errors found")
  {
    var pattern := if filter.Some? then filter.value else "";
    KeptNone(lines, ErrorsOnly, pattern);
  }

  /** The filter fails exactly when string matching is asked for without
      a non-empty match string. */
  lemma FilterFailsIff(lines: seq<string>, mode: Mode, filter: Option<string>)
    ensures FilterBuildOutput(lines, mode, filter).Failure? <==> mode == StringMatch && !Truthy(filter)
    ensures FilterBuildOutput(lines, mode, filter).Failure? ==>
      FilterBuildOutput(lines, mode, filter).error == StringMatchRequired
  {
  }

  // ---------------------------------------------------------------------
  // `All` mode

  /** Joining lines with newlines and splitting on newlines gives them back,
      when no line holds a newline (as no line of `splitlines()` does). */
  predicate NoNewlines(lines: seq<string>) {
    forall i :: 0 <= i < |lines| ==> '\n' !in lines[i]
  }

  /** Decimal digits hold no line break. */
  lemma DigitsOneLine(n: nat)
    ensures '\n' !in NatToString(n)
  {
    var digits := NatToString(n);
    NatToStringRoundTrip(n);
    forall i | 0 <= i < |digits| ensures digits[i] != '\n' {
      assert IsDigit(digits[i]);
    }
  }

  /** The truncation header is a single line. */
  lemma HeaderOneLine(total: nat)
    ensures '\n' !in TruncationHeader(total)
  {
    DigitsOneLine(MaxLines);
    DigitsOneLine(total);
    assert '\n' !in "[Output truncated - showing last ";
    assert '\n' !in " lines of " && '\n' !in " total lines]";
  }

  /** The header names the line limit, 200, and the transcript's length
      in decimal digits that read back as that length. */
  lemma HeaderNamesTotal(total: nat)
    ensures var digits := NatToString(total);
      TruncationHeader(total) == "[Output truncated - showing last 200 lines of " + digits + " total lines]" &&
      (forall i :: 0 <= i < |digits| ==> IsDigit(digits[i])) && DigitsValue(digits) == total
  {
    NatToStringRoundTrip(total);
    assert NatToString(MaxLines) == "200";
  }

  /** A transcript longer than `MaxLines` comes back as the header naming
      its length, a blank line, and exactly its last `MaxLines` lines. */
  lemma AllTruncates(lines: seq<string>, filter: Option<string>)
    requires |lines| > MaxLines
    ensures var kept := lines[|lines| - MaxLines..];
      |kept| == MaxLines &&
      FilterBuildOutput(lines, All, filter) == Success(Join([TruncationHeader(|lines|), ""] + kept, "\n"))
    ensures NoNewlines(lines) ==>
      Split(FilterBuildOutput(lines, All, filter).value, '\n') ==
        [TruncationHeader(|lines|), ""] + lines[|lines| - MaxLines..]
  {
    var header := TruncationHeader(|lines|);
    var selected := [header, ""] + lines[|lines| - MaxLines..];
    if NoNewlines(lines) {
      HeaderOneLine(|lines|);
      forall i | 0 <= i < |selected| ensures '\n' !in selected[i] {
        if i >= 2 {
          assert selected[i] == lines[|lines| - MaxLines + i - 2];
        }
      }
      SplitJoin(selected, '\n');
    }
  }

  /** A transcript of at most `MaxLines` lines comes back whole. */
  lemma AllShortUnchanged(lines: seq<string>, filter: Option<string>)
    requires 0 < |lines| <= MaxLines
    ensures FilterBuildOutput(lines, All, filter) == Success(Join(lines, "\n"))
    ensures NoNewlines(lines) ==> Split(FilterBuildOutput(lines, All, filter).value, '\n') == lines
  {
    if NoNewlines(lines) {
      SplitJoin(lines, '\n');
    }
  }

  /** An empty transcript in `All` mode answers "No output". */
  lemma AllEmptyNoOutput(filter: Option<string>)
    ensures FilterBuildOutput([], All, filter) == Success("No output")
  {
  }

  // ---------------------------------------------------------------------
  // Never an empty answer, but for one transcript

  /** Joined lines are empty only for no line or one blank line. */
  lemma {:induction false} JoinEmpty(xs: seq<string>, sep: string)
    requires sep != []
    ensures Join(xs, sep) == [] <==> xs == [] || xs == [""]
  {
    if |xs| >= 2 {
      assert |Join(xs, sep)| >= |sep|;
    }
  }

  /** The answer is never the empty string, except in `All` mode for a
      transcript made of a single blank line, whose join is empty; every
      other empty selection is replaced by a placeholder. */
  lemma EmptyAnswerIff(lines: seq<string>, mode: Mode, filter: Option<string>)
    ensures FilterBuildOutput(lines, mode, filter) == Success("") <==> mode == All && lines == [""]
  {
    var pattern := if filter.Some? then filter.value else "";
    if !(mode == StringMatch && !Truthy(filter)) {
      var selected := Selected(lines, mode, pattern);
      JoinEmpty(selected, "\n");
      if mode != All && selected == [""] {
        KeptSpec(lines, mode, pattern);
        assert "" in Kept(lines, mode, pattern);
        KeptNotEmpty("", mode, pattern);
      }
      if mode == All && selected == [""] {
        assert |lines| <= MaxLines;
      }
    }
  }
}
