/** The tool handlers of the server: `build` and `test`, `list_schemes`,
    `set_default_scheme` and `get_default_scheme`, over the process-wide
    default scheme. The folder's directory tree, the text `xcodebuild -list`
    prints for the project found, the simulator inventory and the outcome of
    the build run are given to the handlers instead of being read from the
    system. */
module Server {
  import opened Wrappers
  import opened Strings
  import opened ProjectLocator
  import opened SchemeList
  import opened SchemeResolution
  import opened Destination
  import opened OutputFilter

  const NoProjectFound := "No Xcode project found in the specified folder"

  /** The two tools that run `xcodebuild`. */
  datatype Tool = Build | Test

  /** What the build run reported: its exit code and the lines of its
      standard output and standard error. */
  datatype BuildRun = BuildRun(exitCode: int, stdout: seq<string>, stderr: seq<string>)

  // ---------------------------------------------------------------------
  // Command assembly

  /** The argument vector for `xcodebuild`, with `test` appended for the
      test tool. */
  function Command(tool: Tool, flag: string, name: string, scheme: string, destination: string): seq<string> {
    ["xcodebuild", flag, name, "-scheme", scheme, "-destination", destination] +
      (if tool == Test then ["test"] else [])
  }

  /** Builds the argument vector from the fixed seven arguments, appending
      `test` for the test tool. */
  method AssembleCommand(tool: Tool, flag: string, name: string, scheme: string, destination: string)
    returns (command: seq<string>)
    ensures command == Command(tool, flag, name, scheme, destination)
    ensures |command| == if tool == Test then 8 else 7
    ensures command[..7] == ["xcodebuild", flag, name, "-scheme", scheme, "-destination", destination]
    ensures tool == Test ==> command[7] == "test"
  {
    command := ["xcodebuild", flag, name, "-scheme", scheme, "-destination", destination];
    if tool == Test {
      command := command + ["test"];
    }
  }

  /** The first segment of a build reply. */
  function CommandLine(command: seq<string>): string {
    "Command: " + Join(command, " ")
  }

  /** The second segment of a build reply. */
  function StatusLine(exitCode: int): string {
    "Build " + (if exitCode == 0 then "succeeded" else "failed") + " (exit code: " + IntToString(exitCode) + ")"
  }

  /** The status line reports success exactly for exit code 0, and names
      the code in decimal. */
  lemma StatusLineSpec(exitCode: int)
    ensures StatusLine(exitCode) == "Build succeeded (exit code: 0)" <==> exitCode == 0
    ensures exitCode >= 0 ==>
      StatusLine(exitCode) == "Build " + (if exitCode == 0 then "succeeded" else "failed") +
        " (exit code: " + NatToString(exitCode) + ")" &&
      (forall i :: 0 <= i < |NatToString(exitCode)| ==> IsDigit(NatToString(exitCode)[i])) &&
      DigitsValue(NatToString(exitCode)) == exitCode
  {
    if exitCode >= 0 {
      NatToStringRoundTrip(exitCode);
    }
    if exitCode == 0 {
      assert NatToString(0) == "0";
    } else {
      var s := StatusLine(exitCode);
      assert s[6] == 'f' && "Build succeeded (exit code: 0)"[6] == 's';
    }
  }

  // ---------------------------------------------------------------------
  // Replies

  /** `list_schemes`' text for the schemes of the project found. */
  function SchemesReply(schemes: seq<string>): string {
    if schemes == [] then "No schemes found"
    else "Available schemes:\n" + Join(Bullets(schemes), "\n")
  }

  /** One `- <scheme>` line per scheme. */
  function Bullets(schemes: seq<string>): (r: seq<string>)
    ensures |r| == |schemes|
    ensures forall i :: 0 <= i < |schemes| ==> r[i] == "- " + schemes[i]
  {
    seq(|schemes|, i requires 0 <= i < |schemes| => "- " + schemes[i])
  }

  /** `get_default_scheme`'s text. */
  function DefaultSchemeReply(defaultScheme: Option<string>): string {
    if Truthy(defaultScheme) then "Current default scheme: '" + defaultScheme.value + "'"
    else "No default scheme configured. Builds will use the first available scheme."
  }

  /** `set_default_scheme`'s text, given whether a project was found and
      the schemes it lists. */
  function SetDefaultReply(projectFound: bool, available: seq<string>, scheme: string): string {
    if !projectFound then NoProjectFound
    else if scheme !in available then NotFoundMessage(scheme, available)
    else "Default scheme set to '" + scheme + "'. Future builds and tests will use this scheme unless explicitly overridden."
  }

  /** A listed scheme holds no line break when the listing's lines hold none. */
  lemma SchemeOneLine(lines: seq<string>, scheme: string)
    requires forall i :: 0 <= i < |lines| ==> '\n' !in lines[i]
    requires scheme in AvailableSchemes(lines)
    ensures '\n' !in scheme
  {
    SchemeListed(lines, scheme);
    var j, k :| 0 <= j < k < |lines| && IsHeader(lines[j]) && ListsScheme(lines[k], scheme);
    StripKeepsOut(lines[k], '\n');
  }

  /** The listing reply is one line per scheme after its title, each line
      `- ` and the scheme, when no line of the listing holds a line break
      (as none of `splitlines()` does). */
  lemma SchemesReplyLines(lines: seq<string>)
    requires forall i :: 0 <= i < |lines| ==> '\n' !in lines[i]
    ensures var schemes := AvailableSchemes(lines);
      schemes != [] ==>
        Split(SchemesReply(schemes), '\n') == ["Available schemes:"] + Bullets(schemes)
  {
    var schemes := AvailableSchemes(lines);
    if schemes != [] {
      var all := ["Available schemes:"] + Bullets(schemes);
      forall i | 0 <= i < |all| ensures '\n' !in all[i] {
        if i > 0 {
          assert schemes[i - 1] in schemes;
          SchemeOneLine(lines, schemes[i - 1]);
          assert all[i] == "- " + schemes[i - 1];
        }
      }
      assert Join(all, "\n") == "Available schemes:" + "\n" + Join(Bullets(schemes), "\n") by {
        assert all[1..] == Bullets(schemes);
      }
      assert "Available schemes:" + "\n" == "Available schemes:\n";
      SplitJoin(all, '\n');
    }
  }

  /** After a successful `set_default_scheme`, `get_default_scheme`
      reports exactly the scheme set: a listed scheme is never empty. */
  lemma SetThenGet(lines: seq<string>, scheme: string)
    requires scheme in AvailableSchemes(lines)
    ensures DefaultSchemeReply(Some(scheme)) == "Current default scheme: '" + scheme + "'"
  {
    SchemeListed(lines, scheme);
  }

  // ---------------------------------------------------------------------
  // The build and test tools

  /** The reply of the `build` or `test` tool once the bundle at path `p`
      is found: an error for the scheme or the destination, or the text
      segments; only then is the build run. */
  function FoundReply(
    tool: Tool, p: seq<string>, listing: seq<string>, inventory: Inventory,
    requested: Option<string>, defaultScheme: Option<string>,
    simulatorName: Option<string>, iosVersion: Option<string>,
    mode: Mode, filter: Option<string>, run: BuildRun): (r: Result<seq<string>, string>)
    requires |p| >= 1
    requires mode == StringMatch ==> Truthy(filter)
    ensures r.Failure? <==>
      ResolveScheme(AvailableSchemes(listing), requested, defaultScheme).Failure? ||
      BuildDestinationSpec(inventory, simulatorName, iosVersion).Failure?
  {
    var flag := ProjectFlag(ProjectPath(p));
    var name := ProjectName(p);
    match ResolveScheme(AvailableSchemes(listing), requested, defaultScheme)
    case Failure(e) => Failure(e)
    case Success(scheme) =>
      match BuildDestinationSpec(inventory, simulatorName, iosVersion)
      case Failure(e) => Failure(e)
      case Success(destination) =>
        Success([CommandLine(Command(tool, flag, name, scheme, destination)), StatusLine(run.exitCode),
                 FilterBuildOutput(run.stdout + run.stderr, mode, filter).value])
  }

  /** The successful reply spelled out, once the scheme, the destination
      and the filter are known to be available. */
  lemma FoundReplySuccess(
    tool: Tool, p: seq<string>, listing: seq<string>, inventory: Inventory,
    requested: Option<string>, defaultScheme: Option<string>,
    simulatorName: Option<string>, iosVersion: Option<string>,
    mode: Mode, filter: Option<string>, run: BuildRun)
    requires |p| >= 1
    requires mode == StringMatch ==> Truthy(filter)
    requires ResolveScheme(AvailableSchemes(listing), requested, defaultScheme).Success?
    requires BuildDestinationSpec(inventory, simulatorName, iosVersion).Success?
    ensures FilterBuildOutput(run.stdout + run.stderr, mode, filter).Success?
    ensures FoundReply(tool, p, listing, inventory, requested, defaultScheme,
        simulatorName, iosVersion, mode, filter, run) ==
      Success([CommandLine(Command(tool, ProjectFlag(ProjectPath(p)), ProjectName(p),
          ResolveScheme(AvailableSchemes(listing), requested, defaultScheme).value,
          BuildDestinationSpec(inventory, simulatorName, iosVersion).value)),
        StatusLine(run.exitCode), FilterBuildOutput(run.stdout + run.stderr, mode, filter).value])
  {
    FilterFailsIff(run.stdout + run.stderr, mode, filter);
  }

  /** The reply of the `build` or `test` tool: the string-match check comes
      first, then the project. */
  ghost function ToolReply(
    tool: Tool, folder: Dir, listing: seq<string>, inventory: Inventory,
    requested: Option<string>, defaultScheme: Option<string>,
    simulatorName: Option<string>, iosVersion: Option<string>,
    mode: Mode, filter: Option<string>, run: BuildRun): Result<seq<string>, string>
  {
    if mode == StringMatch && !Truthy(filter) then Failure(StringMatchRequired)
    else match Locate(folder)
      case None => Success([NoProjectFound])
      case Some(p) =>
        LocateSound(folder);
        FoundReply(tool, p, listing, inventory, requested, defaultScheme, simulatorName, iosVersion, mode, filter, run)
  }

  /** The tool fails exactly when string matching lacks its string, or a
      project is found and its scheme or the destination cannot be had;
      a missing project is an ordinary reply, as is a failed build. */
  lemma ToolFailsIff(
    tool: Tool, folder: Dir, listing: seq<string>, inventory: Inventory,
    requested: Option<string>, defaultScheme: Option<string>,
    simulatorName: Option<string>, iosVersion: Option<string>,
    mode: Mode, filter: Option<string>, run: BuildRun)
    ensures var r := ToolReply(tool, folder, listing, inventory, requested, defaultScheme,
      simulatorName, iosVersion, mode, filter, run);
      r.Failure? <==>
        (mode == StringMatch && !Truthy(filter)) ||
        (Locate(folder).Some? &&
          (ResolveScheme(AvailableSchemes(listing), requested, defaultScheme).Failure? ||
           BuildDestinationSpec(inventory, simulatorName, iosVersion).Failure?))
  {
    if Locate(folder).Some? {
      LocateSound(folder);
    }
  }

  /** A successful build reply for a project found has three segments: the
      command naming the project, scheme and destination, the status line
      of the run, and the filtered transcript of standard output followed
      by standard error. */
  lemma ToolReplySegments(
    tool: Tool, folder: Dir, listing: seq<string>, inventory: Inventory,
    requested: Option<string>, defaultScheme: Option<string>,
    simulatorName: Option<string>, iosVersion: Option<string>,
    mode: Mode, filter: Option<string>, run: BuildRun)
    requires Locate(folder).Some?
    requires ToolReply(tool, folder, listing, inventory, requested, defaultScheme,
      simulatorName, iosVersion, mode, filter, run).Success?
    ensures var r := ToolReply(tool, folder, listing, inventory, requested, defaultScheme,
      simulatorName, iosVersion, mode, filter, run).value;
      var scheme := ResolveScheme(AvailableSchemes(listing), requested, defaultScheme).value;
      var p := Locate(folder).value;
      |r| == 3 && |p| >= 1 &&
      r[0] == CommandLine(Command(tool, ProjectFlag(ProjectPath(p)), ProjectName(p), scheme,
        BuildDestinationSpec(inventory, simulatorName, iosVersion).value)) &&
      (scheme in AvailableSchemes(listing) || (scheme == [] && AvailableSchemes(listing) == [])) &&
      r[1] == StatusLine(run.exitCode) &&
      FilterBuildOutput(run.stdout + run.stderr, mode, filter) == Success(r[2])
  {
    LocateSound(folder);
    FilterFailsIff(run.stdout + run.stderr, mode, filter);
  }

  /** The process-wide state of the server: `default_scheme`. */
  class BuildServer {
    var defaultScheme: Option<string>

    /** The server starts without a default scheme. */
    constructor()
      ensures defaultScheme == None
    {
      defaultScheme := None;
    }

    /** `find_scheme`, over the listing of the project found. */
    method FindScheme(listing: seq<string>, requested: Option<string>) returns (r: Result<string, string>)
      ensures r == ResolveScheme(AvailableSchemes(listing), requested, defaultScheme)
    {
      var available := ParseSchemes(listing);
      r := ResolveScheme(available, requested, defaultScheme);
    }

    /** The `set_default_scheme` tool: the scheme becomes the default only
      when a project is found that lists it; otherwise nothing changes. */
    method SetDefaultScheme(folder: Dir, listing: seq<string>, scheme: string) returns (reply: string)
      modifies this
      ensures reply == SetDefaultReply(Locate(folder).Some?, AvailableSchemes(listing), scheme)
      ensures defaultScheme ==
        if Locate(folder).Some? && scheme in AvailableSchemes(listing) then Some(scheme)
        else old(defaultScheme)
    {
      var found := FindXcodeProject(folder);
      if found.None? {
        return NoProjectFound;
      }
      var available := ParseSchemes(listing);
      if scheme !in available {
        return NotFoundMessage(scheme, available);
      }
      defaultScheme := Some(scheme);
      return "Default scheme set to '" + scheme + "'. Future builds and tests will use this scheme unless explicitly overridden.";
    }

    /** The `get_default_scheme` tool; it changes nothing. */
    method GetDefaultScheme() returns (reply: string)
      ensures reply == DefaultSchemeReply(defaultScheme)
      ensures Truthy(defaultScheme) ==> reply == "Current default scheme: '" + defaultScheme.value + "'"
      ensures !Truthy(defaultScheme) ==> reply == "No default scheme configured. Builds will use the first available scheme."
    {
      if defaultScheme.Some? && defaultScheme.value != [] {
        reply := "Current default scheme: '" + defaultScheme.value + "'";
      } else {
        reply := "No default scheme configured. Builds will use the first available scheme.";
      }
    }

    /** The `list_schemes` tool. */
    method ListSchemes(folder: Dir, listing: seq<string>) returns (reply: string)
      ensures reply == if Locate(folder).None? then NoProjectFound else SchemesReply(AvailableSchemes(listing))
    {
      var found := FindXcodeProject(folder);
      if found.None? {
        return NoProjectFound;
      }
      var schemes := ParseSchemes(listing);
      reply := SchemesReply(schemes);
    }

    /** The `build` and `test` tools once the bundle at path `p` is found. */
    method RunFound(
      tool: Tool, p: seq<string>, listing: seq<string>, inventory: Inventory,
      requested: Option<string>, simulatorName: Option<string>, iosVersion: Option<string>,
      mode: Mode, filter: Option<string>, run: BuildRun)
      returns (r: Result<seq<string>, string>)
      requires |p| >= 1
      requires mode == StringMatch ==> Truthy(filter)
      ensures r == FoundReply(tool, p, listing, inventory, requested, defaultScheme,
        simulatorName, iosVersion, mode, filter, run)
    {
      var flag := ProjectFlag(ProjectPath(p));
      var name := ProjectName(p);
      var scheme := FindScheme(listing, requested);
      if scheme.Failure? {
        return Failure(scheme.error);
      }
      var destination := BuildDestination(inventory, simulatorName, iosVersion);
      if destination.Failure? {
        return Failure(destination.error);
      }
      var command := AssembleCommand(tool, flag, name, scheme.value, destination.value);
      FilterFailsIff(run.stdout + run.stderr, mode, filter);
      var output := FilterBuildOutput(run.stdout + run.stderr, mode, filter);
      FoundReplySuccess(tool, p, listing, inventory, requested, defaultScheme,
        simulatorName, iosVersion, mode, filter, run);
      return Success([CommandLine(command), StatusLine(run.exitCode), output.value]);
    }

    /** The `build` and `test` tools. */
    method RunTool(
      tool: Tool, folder: Dir, listing: seq<string>, inventory: Inventory,
      requested: Option<string>, simulatorName: Option<string>, iosVersion: Option<string>,
      mode: Mode, filter: Option<string>, run: BuildRun)
      returns (r: Result<seq<string>, string>)
      ensures r == ToolReply(tool, folder, listing, inventory, requested, defaultScheme,
        simulatorName, iosVersion, mode, filter, run)
    {
      if mode == StringMatch && !Truthy(filter) {
        return Failure(StringMatchRequired);
      }
      var found := FindXcodeProject(folder);
      if found.None? {
        return Success([NoProjectFound]);
      }
      LocateSound(folder);
      r := RunFound(tool, found.value, listing, inventory, requested, simulatorName, iosVersion, mode, filter, run);
    }
  }

  /** A fresh server on which a listed scheme of a found project is set
      reports that scheme as the default. */
  method SetThenGetRoundTrip(folder: Dir, listing: seq<string>, scheme: string) returns (reply: string)
    requires Locate(folder).Some? && scheme in AvailableSchemes(listing)
    ensures reply == "Current default scheme: '" + scheme + "'"
  {
    var server := new BuildServer();
    var setReply := server.SetDefaultScheme(folder, listing, scheme);
    SetThenGet(listing, scheme);
    reply := server.GetDefaultScheme();
  }

}
