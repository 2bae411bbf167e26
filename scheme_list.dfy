/** Reading the scheme names out of the text `xcodebuild -list` prints:
    every non-blank line after the first line that mentions `Schemes:`,
    with its surrounding whitespace removed. */
module SchemeList {
  import opened Wrappers
  import opened Strings

  const SchemesHeader := "Schemes:"

  /** A line that opens (or re-opens) the schemes section. */
  predicate IsHeader(line: string) {
    Contains(line, SchemesHeader)
  }

  /** Where the schemes section starts: the first header line. */
  function HeaderIndex(lines: seq<string>): (r: Option<nat>)
    ensures r.Some? ==> r.value < |lines| && IsHeader(lines[r.value])
  {
    if lines == [] then None
    else if IsHeader(lines[0]) then Some(0)
    else match HeaderIndex(lines[1..])
      case None => None
      case Some(k) => Some(k + 1)
  }

  /** No line before the first header is a header, and without a header
      index no line is one. */
  lemma {:induction false} HeaderIndexFirst(lines: seq<string>)
    ensures forall k :: 0 <= k < |lines| && (HeaderIndex(lines).None? || k < HeaderIndex(lines).value) ==>
      !IsHeader(lines[k])
    decreases |lines|
  {
    if lines != [] && !IsHeader(lines[0]) {
      HeaderIndexFirst(lines[1..]);
      assert forall k :: 1 <= k < |lines| ==> lines[k] == lines[1..][k - 1];
    }
  }

  /** What one line inside the section contributes: nothing for a header
      line or a blank one, otherwise the line stripped. */
  function Entry(line: string): (r: seq<string>)
    ensures |r| <= 1
  {
    if IsHeader(line) then []
    else
      var s := Strip(line);
      if s == [] then [] else [s]
  }

  /** `line`, inside the section, lists the scheme `s`. */
  predicate ListsScheme(line: string, s: string) {
    Entry(line) == [s]
  }

  /** The entries of the lines of the section, in order. */
  function Entries(body: seq<string>): seq<string>
  {
    if body == [] then [] else Entries(body[..|body| - 1]) + Entry(body[|body| - 1])
  }

  /** `get_available_schemes`, on the lines of the listing. */
  function AvailableSchemes(lines: seq<string>): seq<string>
  {
    match HeaderIndex(lines)
    case None => []
    case Some(h) => Entries(lines[h + 1..])
  }

  /** One more line moves the first header only if there was none. */
  lemma {:induction false} HeaderIndexSnoc(lines: seq<string>, line: string)
    ensures HeaderIndex(lines + [line]) ==
      if HeaderIndex(lines).Some? then HeaderIndex(lines)
      else if IsHeader(line) then Some(|lines|)
      else None
    decreases |lines|
  {
    if lines == [] {
      assert lines + [line] == [line];
    } else {
      assert (lines + [line])[0] == lines[0];
      assert (lines + [line])[1..] == lines[1..] + [line];
      HeaderIndexSnoc(lines[1..], line);
    }
  }

  /** One more line of the listing adds its entry once the section has
      started, and nothing before. */
  lemma AvailableSchemesSnoc(lines: seq<string>, line: string)
    ensures AvailableSchemes(lines + [line]) ==
      if HeaderIndex(lines).Some? then AvailableSchemes(lines) + Entry(line) else []
  {
    HeaderIndexSnoc(lines, line);
    var hi := HeaderIndex(lines);
    if hi.Some? {
      var h := hi.value;
      assert HeaderIndex(lines + [line]) == Some(h);
      assert AvailableSchemes(lines) == Entries(lines[h + 1..]);
      assert AvailableSchemes(lines + [line]) == Entries((lines + [line])[h + 1..]);
      SectionSnoc(lines, line, h);
    } else if IsHeader(line) {
      assert HeaderIndex(lines + [line]) == Some(|lines|);
      assert (lines + [line])[|lines| + 1..] == [];
    } else {
      assert HeaderIndex(lines + [line]) == None;
    }
  }

  /** The section body grows by the new line. */
  lemma SectionSnoc(lines: seq<string>, line: string, h: nat)
    requires h < |lines|
    ensures Entries((lines + [line])[h + 1..]) == Entries(lines[h + 1..]) + Entry(line)
  {
    var body := (lines + [line])[h + 1..];
    assert body == lines[h + 1..] + [line];
    assert body[..|body| - 1] == lines[h + 1..];
  }

  /** The loop of `get_available_schemes` over the listing's lines. */
  method ParseSchemes(lines: seq<string>) returns (schemes: seq<string>)
    ensures schemes == AvailableSchemes(lines)
  {
    schemes := [];
    var inSchemesSection := false;
    for i := 0 to |lines|
      invariant inSchemesSection <==> HeaderIndex(lines[..i]).Some?
      invariant schemes == AvailableSchemes(lines[..i])
    {
      assert lines[..i + 1] == lines[..i] + [lines[i]];
      AvailableSchemesSnoc(lines[..i], lines[i]);
      HeaderIndexSnoc(lines[..i], lines[i]);
      if Contains(lines[i], SchemesHeader) {
        inSchemesSection := true;
        continue;
      }
      if inSchemesSection {
        var scheme := Strip(lines[i]);
        if scheme != [] {
          schemes := schemes + [scheme];
        }
      }
    }
    assert lines[..|lines|] == lines;
  }

  /** The entries of two stretches of lines follow one another: the order
      of the listing is kept. */
  lemma {:induction false} EntriesAppend(a: seq<string>, b: seq<string>)
    ensures Entries(a + b) == Entries(a) + Entries(b)
    decreases |b|
  {
    if b == [] {
      assert a + b == a;
    } else {
      var b' := b[..|b| - 1];
      assert (a + b)[..|a + b| - 1] == a + b';
      EntriesAppend(a, b');
    }
  }

  /** A line that lists `s` puts `s` among the entries. */
  lemma {:induction false} EntriesHas(body: seq<string>, i: nat, s: string)
    requires i < |body| && ListsScheme(body[i], s)
    ensures s in Entries(body)
    decreases |body|
  {
    var init := body[..|body| - 1];
    assert Entries(body) == Entries(init) + Entry(body[|body| - 1]);
    if i < |init| {
      assert init[i] == body[i];
      EntriesHas(init, i, s);
    } else {
      assert Entry(body[|body| - 1]) == [s];
    }
  }

  /** Every entry comes from a line that lists it. */
  lemma {:induction false} EntriesSource(body: seq<string>, s: string) returns (i: nat)
    requires s in Entries(body)
    ensures i < |body| && ListsScheme(body[i], s)
    decreases |body|
  {
    var init, last := body[..|body| - 1], body[|body| - 1];
    assert Entries(body) == Entries(init) + Entry(last);
    if s in Entries(init) {
      i := EntriesSource(init, s);
      assert body[i] == init[i];
    } else {
      assert s in Entry(last);
      i := |body| - 1;
    }
  }

  /** Which names come out of a stretch of section lines. */
  lemma EntriesMember(body: seq<string>, s: string)
    ensures s in Entries(body) <==> exists i :: 0 <= i < |body| && ListsScheme(body[i], s)
  {
    if s in Entries(body) {
      var i := EntriesSource(body, s);
    }
    if exists i :: 0 <= i < |body| && ListsScheme(body[i], s) {
      var i :| 0 <= i < |body| && ListsScheme(body[i], s);
      EntriesHas(body, i, s);
    }
  }

  /** A name is listed exactly when some line after a header line is not
      itself a header line and strips to that non-empty name. */
  lemma SchemeListed(lines: seq<string>, s: string)
    ensures s in AvailableSchemes(lines) <==>
      exists j, i :: 0 <= j < i < |lines| && IsHeader(lines[j]) && ListsScheme(lines[i], s)
  {
    HeaderIndexFirst(lines);
    match HeaderIndex(lines)
    case None =>
    case Some(h) =>
      var body := lines[h + 1..];
      EntriesMember(body, s);
      if s in AvailableSchemes(lines) {
        var i :| 0 <= i < |body| && ListsScheme(body[i], s);
        assert lines[h + 1 + i] == body[i];
        assert IsHeader(lines[h]) && ListsScheme(lines[h + 1 + i], s);
      }
      if exists j, i :: 0 <= j < i < |lines| && IsHeader(lines[j]) && ListsScheme(lines[i], s) {
        var j, i :| 0 <= j < i < |lines| && IsHeader(lines[j]) && ListsScheme(lines[i], s);
        assert h <= j;
        assert body[i - h - 1] == lines[i];
      }
  }

  /** Without a header line there are no schemes. */
  lemma NoHeaderNoSchemes(lines: seq<string>)
    requires forall i :: 0 <= i < |lines| ==> !IsHeader(lines[i])
    ensures AvailableSchemes(lines) == []
  {
  }

  /** A scheme name as the parser hands it out: non-empty, without
      surrounding whitespace and without the header text. */
  predicate CleanName(e: string) {
    e != [] && Strip(e) == e && !IsHeader(e)
  }

  /** Every entry is a clean name. */
  lemma {:induction false} EntriesClean(body: seq<string>)
    ensures forall k :: 0 <= k < |Entries(body)| ==> CleanName(Entries(body)[k])
    ensures |Entries(body)| <= |body|
    decreases |body|
  {
    if body != [] {
      var line := body[|body| - 1];
      assert Entries(body) == Entries(body[..|body| - 1]) + Entry(line);
      EntriesClean(body[..|body| - 1]);
      if Entry(line) != [] {
        StripIdempotent(line);
        StripSpec(line);
        if IsHeader(Strip(line)) {
          StripContains(line, SchemesHeader);
        }
      }
    }
  }

  /** What `get_available_schemes` returns is a list of clean names, no
      longer than the listing. */
  lemma SchemesClean(lines: seq<string>)
    ensures forall k :: 0 <= k < |AvailableSchemes(lines)| ==> CleanName(AvailableSchemes(lines)[k])
    ensures |AvailableSchemes(lines)| <= |lines|
  {
    match HeaderIndex(lines)
    case None =>
      assert AvailableSchemes(lines) == [];
    case Some(h) =>
      assert AvailableSchemes(lines) == Entries(lines[h + 1..]);
      EntriesClean(lines[h + 1..]);
  }
}
