/** `find_scheme`'s choice of the scheme to build: the requested one, else
    the configured default, else the first one the project lists, else
    the empty string. */
module SchemeResolution {
  import opened Wrappers
  import opened Strings
  import opened SchemeList

  /** `requested_scheme or default_scheme`. */
  function Candidate(requested: Option<string>, defaultScheme: Option<string>): Option<string> {
    if Truthy(requested) then requested else defaultScheme
  }

  /** The error raised for a candidate the project does not list. */
  function NotFoundMessage(scheme: string, available: seq<string>): string {
    "Scheme '" + scheme + "' not found. Available schemes: " + Join(available, ", ")
  }

  /** `find_scheme`, given the schemes the project lists. */
  function ResolveScheme(available: seq<string>, requested: Option<string>, defaultScheme: Option<string>)
    : (r: Result<string, string>)
    ensures r.Failure? <==>
      Truthy(Candidate(requested, defaultScheme)) && Candidate(requested, defaultScheme).value !in available
    ensures r.Failure? ==> r.error == NotFoundMessage(Candidate(requested, defaultScheme).value, available)
    ensures r.Success? ==> r.value in available || (r.value == [] && available == [])
  {
    var candidate := Candidate(requested, defaultScheme);
    if Truthy(candidate) then
      if candidate.value in available then Success(candidate.value)
      else Failure(NotFoundMessage(candidate.value, available))
    else if available != [] then Success(available[0])
    else Success("")
  }

  /** A requested scheme the project lists is used, whatever the default. */
  lemma RequestedWins(available: seq<string>, requested: string, defaultScheme: Option<string>)
    requires requested != [] && requested in available
    ensures ResolveScheme(available, Some(requested), defaultScheme) == Success(requested)
  {
  }

  /** A requested scheme the project does not list is an error, even when
      the default is listed and the list is not empty. */
  lemma RequestedMissingFails(available: seq<string>, requested: string, defaultScheme: Option<string>)
    requires requested != [] && requested !in available
    ensures ResolveScheme(available, Some(requested), defaultScheme)
      == Failure(NotFoundMessage(requested, available))
  {
  }

  /** Without a request, a listed default is used. */
  lemma DefaultUsed(available: seq<string>, requested: Option<string>, defaultScheme: string)
    requires !Truthy(requested)
    requires defaultScheme != [] && defaultScheme in available
    ensures ResolveScheme(available, requested, Some(defaultScheme)) == Success(defaultScheme)
  {
  }

  /** Without a request or a default, the first listed scheme is used, or
      the empty string when the project lists none. */
  lemma FirstAvailable(available: seq<string>, requested: Option<string>, defaultScheme: Option<string>)
    requires !Truthy(requested) && !Truthy(defaultScheme)
    ensures ResolveScheme(available, requested, defaultScheme)
      == Success(if available == [] then "" else available[0])
  {
  }

  /** For the schemes a listing holds, the empty string is returned exactly
      when there is no candidate and the listing holds no scheme. */
  lemma EmptySchemeIff(lines: seq<string>, requested: Option<string>, defaultScheme: Option<string>)
    ensures ResolveScheme(AvailableSchemes(lines), requested, defaultScheme) == Success("") <==>
      !Truthy(Candidate(requested, defaultScheme)) && AvailableSchemes(lines) == []
  {
    var available := AvailableSchemes(lines);
    SchemesClean(lines);
    if available != [] {
      assert available[0] != [];
    }
  }
}
