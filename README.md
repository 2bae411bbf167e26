# mcpxcodebuild in Dafny

A Dafny model of the core of `mcpxcodebuild`. This is a Model Context Protocol server that builds and tests an iOS Xcode workspace or project on behalf of an agent. Each tool call goes through the same steps:

1. The server walks the folder to find a `.xcworkspace` or `.xcodeproj` bundle.
2. It reads the scheme names out of what `xcodebuild -list` prints.
3. It picks a scheme. The order of preference is the requested scheme, then the process-wide default scheme, then the first scheme listed.
4. It picks a simulator destination from the inventory that `xcrun simctl list devices --json` reports.
5. It assembles the `xcodebuild` command.
6. It filters the build transcript before answering.

The model is made of these modules:

- `Wrappers`: `Option`, `Result` and Python truthiness of an optional string.
- `Strings`: the Python string operations the server relies on. These are `in`, `lower()`, `strip()`, `"sep".join`, `split(sep)[-1]`, `replace`, `str(n)` and string ordering.
- `ProjectLocator`: `find_xcode_project` over an in-memory directory tree. It also derives the `-workspace`/`-project` flag and the bundle name from the path found.
- `SchemeList`: the parse loop of `get_available_schemes`.
- `SchemeResolution`: the choice `find_scheme` makes.
- `Destination`: `find_available_simulator` and `build_destination`.
- `OutputFilter`: `filter_build_output`.
- `Server`: command assembly, the tool replies, and the class `BuildServer`. That class holds the global `default_scheme` and has one method per tool.

The code has two styles:

- Imperative code is modelled by methods with loops. This covers the scheme parse loop, the directory walk, the simulator scans, the default-scheme update and the command append.
- Each method is proved equal to a specification function. The lemmas are stated about those functions.

The file system, `xcodebuild -list`, `simctl` and the build run are not called. Their results are parameters of the handlers:

- a directory tree;
- the lines of the listing;
- the device inventory in iteration order;
- the exit code and the output lines.

One behaviour of the server is kept as written. When the bundle is found in a subdirectory, only its base name is passed to `xcodebuild`, not its path. `ProjectName` is that base name. The flag, however, is decided on the full path.

## Model

| member | source | states |
|---|---|---|
| Strings.StripSpec | src/mcpxcodebuild/server.py:53 | `strip()` is empty exactly when the line is all whitespace. Otherwise it starts and ends with a non-whitespace character and is the stretch of the line between the leading and trailing whitespace. |
| Strings.StripIdempotent | src/mcpxcodebuild/server.py:53 | Stripping a stripped line changes nothing. |
| Strings.StripContains | src/mcpxcodebuild/server.py:49-53 | Text found in the stripped line is also found in the line. |
| Strings.SplitJoin | src/mcpxcodebuild/server.py:121 | Splitting `"\n".join(xs)` on line breaks gives back `xs` when no element holds a line break. |
| Strings.NatToStringRoundTrip | src/mcpxcodebuild/server.py:315 | `str(n)` is a non-empty string of decimal digits that reads back as `n`. |
| Strings.LastPieceSpec | src/mcpxcodebuild/server.py:133 | `split("iOS-")[-1]` is the suffix after the last separator. It holds no separator and is either the whole identifier or preceded by the separator. |
| ProjectLocator.SortDesc | src/mcpxcodebuild/server.py:30 | `dirs.sort(reverse=True)` returns a descending permutation of the names. |
| ProjectLocator.DescendingUnique | src/mcpxcodebuild/server.py:30 | Two descending orderings of the same names are equal, so the visiting order is determined. |
| ProjectLocator.FirstBundle | src/mcpxcodebuild/server.py:31-33 | Returns the first index of a level whose name ends in `.xcworkspace` or `.xcodeproj`. No earlier name does. |
| ProjectLocator.FindBundle | src/mcpxcodebuild/server.py:31-33 | The scan loop of one level returns the first bundle index. |
| ProjectLocator.FindXcodeProject | src/mcpxcodebuild/server.py:28-34 | The top-down walk returns exactly `Locate`. Each level is sorted descending and checked for a bundle before any subdirectory is entered. |
| ProjectLocator.LocateSound | src/mcpxcodebuild/server.py:28-34 | A returned path exists below the start and ends in a bundle. No directory on the way is a bundle. |
| ProjectLocator.LocateComplete | src/mcpxcodebuild/server.py:28-34 | If any directory at any depth has a bundle name, something is returned. |
| ProjectLocator.LocateNoneIff | src/mcpxcodebuild/server.py:28-34 | The walk returns None exactly when no directory below the start has a bundle name. |
| ProjectLocator.LocateTopLevel | src/mcpxcodebuild/server.py:29-33 | When the start itself holds a bundle, the result is the greatest bundle name at that level. The walk never descends in that case. |
| ProjectLocator.WorkspaceBeatsProject | src/mcpxcodebuild/server.py:30-33 | With `A.xcodeproj` and `Z.xcworkspace` side by side, the reverse sort makes the workspace win. |
| ProjectLocator.ProjectFlagFromName | src/mcpxcodebuild/server.py:236-237 | The flag is `-workspace` exactly when the bundle name ends in `.xcworkspace`. Otherwise it is `-project`. |
| SchemeList.HeaderIndex | src/mcpxcodebuild/server.py:49-50 | When present, the index returned is a line mentioning `Schemes:`. |
| SchemeList.HeaderIndexFirst | src/mcpxcodebuild/server.py:47-50 | No line before that index mentions `Schemes:`. |
| SchemeList.AvailableSchemesSnoc | src/mcpxcodebuild/server.py:48-55 | Once the section has started, one more line appends exactly that line's entry. Before that it appends nothing. |
| SchemeList.ParseSchemes | src/mcpxcodebuild/server.py:45-57 | The loop with its `in_schemes_section` flag returns exactly `AvailableSchemes`. |
| SchemeList.EntriesAppend | src/mcpxcodebuild/server.py:48-55 | The schemes of consecutive stretches of lines come out in listing order. |
| SchemeList.EntriesMember | src/mcpxcodebuild/server.py:52-55 | A name comes out of a stretch exactly when one of its lines is not a header line and strips to that name. |
| SchemeList.SchemeListed | src/mcpxcodebuild/server.py:45-57 | A name is returned exactly when some line after a `Schemes:` line is not itself a header line and strips to the non-empty name. |
| SchemeList.NoHeaderNoSchemes | src/mcpxcodebuild/server.py:47-57 | A listing without a `Schemes:` line gives no schemes. |
| SchemeList.SchemesClean | src/mcpxcodebuild/server.py:53-55 | Every returned name is non-empty, already stripped and not a header line. There are at most as many names as lines. |
| SchemeResolution.ResolveScheme | src/mcpxcodebuild/server.py:59-75 | It fails exactly when the candidate (`requested or default`) is truthy and not listed. The error names the candidate and the listed schemes. Success gives a listed scheme, or `""` when none is listed. |
| SchemeResolution.RequestedWins | src/mcpxcodebuild/server.py:64-68 | A listed requested scheme is used whatever the default. |
| SchemeResolution.RequestedMissingFails | src/mcpxcodebuild/server.py:66-70 | An unlisted requested scheme fails, even when the default is listed. |
| SchemeResolution.DefaultUsed | src/mcpxcodebuild/server.py:64-68 | Without a request, a listed default is used. |
| SchemeResolution.FirstAvailable | src/mcpxcodebuild/server.py:72-75 | Without a request or default, the first listed scheme is used, or `""`. |
| SchemeResolution.EmptySchemeIff | src/mcpxcodebuild/server.py:59-75 | `""` comes back exactly when there is no candidate and the listing holds no scheme. |
| Destination.RuntimeVersion | src/mcpxcodebuild/server.py:133 | The dotted version holds no `-` and is as long as the text after the last `iOS-`. `VersionShape` pins each character. The same derivation is used at line 149. |
| Destination.AvailableSims | src/mcpxcodebuild/server.py:129-130 | A runtime offers no more simulators than it has devices, all with the runtime's version. |
| Destination.FirstWanted | src/mcpxcodebuild/server.py:147-161 | Returns the first simulator meeting every supplied criterion, or None when none does. |
| Destination.ScanDevices | src/mcpxcodebuild/server.py:155-161 | The device loop returns the first available device meeting the name criterion. |
| Destination.FindAvailableSimulator | src/mcpxcodebuild/server.py:123-135 | The nested loops return the descriptor of the first available device under an iOS runtime, or `""`. |
| Destination.BuildDestination | src/mcpxcodebuild/server.py:137-172 | The three branches return exactly `BuildDestinationSpec`. The version check that skips a runtime is proved equivalent to filtering its candidates. |
| Destination.WantedAtVersion | src/mcpxcodebuild/server.py:151-158 | Under a runtime whose version meets the version criterion, only the name decides. |
| Destination.NoneAtOtherVersion | src/mcpxcodebuild/server.py:151-153 | Under a runtime of another version than the one asked for, nothing is picked. |
| Destination.CandidatesMember | src/mcpxcodebuild/server.py:127-134 | The scans consider exactly the available devices of the runtimes whose id mentions `iOS`. Each gets its runtime's dotted version. |
| Destination.DestinationFailsIff | src/mcpxcodebuild/server.py:137-172 | Destination choice fails exactly when one criterion is supplied and no candidate meets it. |
| Destination.ChosenFromInventory | src/mcpxcodebuild/server.py:142-172 | Unless both criteria are given, a non-empty descriptor names a candidate that meets every supplied criterion. |
| Destination.BothGivenIgnoresInventory | src/mcpxcodebuild/server.py:139-141 | With both criteria given, every inventory gives the descriptor of exactly those values. |
| Destination.FirstInInventoryOrder | src/mcpxcodebuild/server.py:147-161 | The chosen simulator is the first matching one in inventory order. |
| Destination.OnlyVersionMatches | src/mcpxcodebuild/server.py:147-161 | One available device under one iOS runtime of the asked version is picked. |
| Destination.OtherVersionFails | src/mcpxcodebuild/server.py:163-169 | Without a runtime of the asked version, the call fails with `...criteria: OS=<version>`. |
| Destination.VersionShape | src/mcpxcodebuild/server.py:133 | A derived version holds no `-`. It is as long as the text after the last `iOS-`, and that text holds no `iOS-`. |
| OutputFilter.FilterBuildOutput | src/mcpxcodebuild/server.py:77-121 | It fails exactly in string-match mode without a truthy match string, with the fixed message. Its other cases are stated by `FilteredModes`, `AllTruncates`, `AllShortUnchanged`, `AllEmptyNoOutput`, `FilterFailsIff` and `EmptyAnswerIff`. |
| OutputFilter.KeptSpec | src/mcpxcodebuild/server.py:93-104 | The comprehension keeps a subsequence of the lines. A line is kept exactly when it is a line of the transcript that the mode keeps. |
| OutputFilter.KeptAppend | src/mcpxcodebuild/server.py:93-104 | Filtering distributes over concatenation, as stdout followed by stderr. |
| OutputFilter.KeptNotEmpty | src/mcpxcodebuild/server.py:93-104 | A line kept by a filtering mode is non-empty: it holds the mode's token or the non-empty match string. A whitespace-only line can still be kept by a whitespace-only match string. |
| OutputFilter.FilteredModes | src/mcpxcodebuild/server.py:91-121 | A filtering mode returns the kept lines joined by line breaks, or that mode's placeholder text when nothing is kept. |
| OutputFilter.NoErrorsFound | src/mcpxcodebuild/server.py:91-111 | A transcript without `error:` gives `No errors found` in errors-only mode. |
| OutputFilter.FilterFailsIff | src/mcpxcodebuild/server.py:100-103 | Filtering fails exactly in string-match mode without a truthy match string, with the fixed message. |
| OutputFilter.HeaderOneLine | src/mcpxcodebuild/server.py:85 | The truncation header is a single line. |
| OutputFilter.HeaderNamesTotal | src/mcpxcodebuild/server.py:82-85 | The header reads `showing last 200 lines of N total lines`. `N` is written in digits that read back as the length. |
| OutputFilter.AllTruncates | src/mcpxcodebuild/server.py:80-88 | More than 200 lines give the header, a blank line and exactly the last 200 lines. Split on line breaks, the result is those lines. |
| OutputFilter.AllShortUnchanged | src/mcpxcodebuild/server.py:89-90 | A transcript of 1 to 200 lines comes back joined and unchanged. |
| OutputFilter.AllEmptyNoOutput | src/mcpxcodebuild/server.py:109-119 | An empty transcript in `all` mode gives `No output`. |
| OutputFilter.EmptyAnswerIff | src/mcpxcodebuild/server.py:77-121 | The answer is the empty string exactly for the one-blank-line transcript in `all` mode. |
| Server.AssembleCommand | src/mcpxcodebuild/server.py:295-303 | The command has seven fixed arguments, in order, plus `test` as the eighth for the test tool. |
| Server.StatusLineSpec | src/mcpxcodebuild/server.py:315 | The status line reports success exactly for exit code 0. A non-negative exit code appears in decimal digits that read back as it. |
| Server.SchemeOneLine | src/mcpxcodebuild/server.py:267-269 | A listed scheme holds no line break when the listing's lines hold none. |
| Server.SchemesReplyLines | src/mcpxcodebuild/server.py:267-269 | The `list_schemes` reply splits into its title and one `- <scheme>` line per scheme, in order. |
| Server.SetThenGet | src/mcpxcodebuild/server.py:239-250 | Once a listed scheme is set, `get_default_scheme` names it. A listed name is never empty, so it is truthy. |
| Server.FoundReply | src/mcpxcodebuild/server.py:287-321 | With a project found, the reply fails exactly when the scheme or the destination cannot be had. |
| Server.ToolFailsIff | src/mcpxcodebuild/server.py:278-294 | A build or test call fails in exactly two cases: string match lacks its string, or a project is found and its scheme or destination fails. A missing project and a failed build are ordinary replies. |
| Server.ToolReplySegments | src/mcpxcodebuild/server.py:305-321 | A successful reply has three segments. The first is the command naming the found bundle's flag and base name, the scheme and the destination. The scheme used is listed, or `""` with an empty listing. The status line and the filtered stdout-then-stderr transcript follow. |
| Server.SetThenGetRoundTrip | src/mcpxcodebuild/server.py:239-250 | On a fresh server, setting a listed scheme of a found project and then asking for the default names that scheme. |
| Server.BuildServer.constructor | src/mcpxcodebuild/server.py:19 | The server starts without a default scheme. |
| Server.BuildServer.FindScheme | src/mcpxcodebuild/server.py:59-75 | `find_scheme` against the current default returns exactly `ResolveScheme`. |
| Server.BuildServer.SetDefaultScheme | src/mcpxcodebuild/server.py:226-246 | The default becomes the scheme only when a project is found that lists it. Otherwise it is unchanged. The reply is the one for each case. |
| Server.BuildServer.GetDefaultScheme | src/mcpxcodebuild/server.py:248-252 | Names a truthy default, or says none is configured. |
| Server.BuildServer.ListSchemes | src/mcpxcodebuild/server.py:254-271 | Replies "no project", or the title and bullets of the listed schemes, or `No schemes found`. |
| Server.BuildServer.RunFound | src/mcpxcodebuild/server.py:287-321 | With a project found, the reply equals `FoundReply`. |
| Server.BuildServer.RunTool | src/mcpxcodebuild/server.py:273-321 | The `build`/`test` handler equals `ToolReply`: filter check, then project, then scheme and destination, then the reply segments. |

## Left out

- The MCP wiring is not modelled: tool registration, argument parsing with pydantic, and the `McpError` wrapping. An error reply is a `Failure` carrying its message.
- `os.chdir` and `os.walk` on a real file system are not modelled. The folder is an in-memory directory tree. Files play no part in the search. Entry names may repeat in the tree. A repeated name is visited once per occurrence, and each visit descends into the first entry of that name.
- Symbolic links are not modelled. `os.walk` lists a symlinked directory among `dirs`, so its name is checked for a bundle, but it never descends into it. The tree has no links, so every directory is descended into.
- `LocateNoneIff`, `LocateComplete`: assume unique names within each directory, as a file system guarantees.
- Running `xcodebuild -list`, `xcrun simctl` and the build is not modelled, and neither is decoding their output as UTF-8 and JSON. Their results are parameters: the listing's lines, the inventory in iteration order, and the exit code with the stdout and stderr lines.
- `splitlines()` is not modelled. The handlers receive lines.
- `ToLower`: ASCII letters only. Python's `lower()` also folds non-ASCII letters.
- The fallback branch of `filter_build_output` for an unknown filter value is left out. The mode is a closed datatype, so that branch cannot be reached.
- `SortDesc`: modelled by an insertion sort with the same result as Python's sort. Names are compared by code point.
- Concurrency between tool calls sharing the global default scheme is not modelled.
