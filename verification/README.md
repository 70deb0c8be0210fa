# geeko-os core, modelled in Dafny

This project models the deterministic core of geeko-os, a Node.js toolkit
for kiosk-style devices. It finds applications on the host, builds the
commands that launch and kill them, keeps a registry of the instances it
launched, and installs npm packages. The model covers the string,
sequence and map logic under that plumbing. The file system, the
environment, child processes and the network are parameters (oracles) of
the functions that use them.

Modules, in the order of the program's layers:

- `Js`, `Strings`: the JavaScript values and string built-ins the source relies on.
  - `Js` covers `undefined`, `null`, booleans, integer numbers and strings, plus truthiness and `Option`.
  - `Strings` covers `split`, `join`, a single-character `replace` with the `g` flag, first-occurrence `replace`, `indexOf`, `trim` and integer printing.
- `Results`: the `Result` tagged union (`src/types/Result.ts`).
- `TextUtilities`: line splitting on `\r`/`\n` and the space-to-newline rewrite.
- `PathTools`: `isPath`, the non-path and absolute branches of `resolvePath`, and the quote insertion of `resolveSpacedPath`.
- `ScanBuilder`: the `find`/`whereis`/`WHERE` argument strings and the parser that files command output under the searched names.
- `SystemScan`: the Linux and Windows `whereIs` pipelines. Command execution is an oracle returning stdout, stderr and an error flag.
- `CoreOS`, `LinuxProvider`, `WindowsProvider`: the provider classes.
  - flag filtering, executable paths, kill commands and path rewriting;
  - `/etc/os-release` parsing over the file's text;
  - home and application paths.
- `Build`: platform detection, the Raspberry Pi model table over the text of `/proc/cpuinfo`, and the provider selection order.
- `Platform`: the platform maps, `resolveFor`, and the default map.
- `ApplicationResolver`: `resolve` and `find`, as an ordered first-match search over a scanner oracle.
- `ApplicationLauncher`: the registry of launched instances with its capacity limit, plus the close and error decisions.
- `ChromiumLauncher`: the flag merge, option normalisation in `launch`, `setPlatformMap` and the kill targets of `closeAll`.
- `NpmService`: npm arguments, module admission, the LIFO install queue with its `busy` flag, and the registry URLs.
- `Directory`, `DirectoryWalk`: `getNamedPath`, the regex-based `directory()`, and the depth-bounded `getDirectoryFiles` walk over an abstract file tree.
- `ThreadPool`: the constructor and the guarded `size`/`file` accessors.

`ThreadPool.ts` holds only the constructor, the `size`/`file` accessors and a `spawn` with an empty body; those are what the `ThreadPool` module models.

Behaviour of the code that the model makes explicit:

- `isWindows` tests for the substring `win`, so `darwin` counts as Windows.
- `??` keeps an empty string where `||` would replace it.
- The Linux scan turns every space of the output into a line break, so every path it reports is a single word.
- The Windows scan drops every line containing `:`, so it reports no drive-qualified path.
- The npm install argument joins name and version with `:` (`install name:1.2.3`), as the code writes it.
- A truthy npm module name that is not a string is queued but never installed.
- `"auto"` is stored verbatim as the pool size.
- A negative `maxLevel` makes `getDirectoryFiles` collect nothing.

## Model

| member | source | states |
|---|---|---|
| TextUtilities.SplitNewline | src/tools/text.utilities.ts:24-35 | a non-string gives no lines; otherwise there is one more line than `\r`/`\n` characters, and no line holds either character |
| TextUtilities.SplitNewlineRoundTrip | src/tools/text.utilities.ts:33-35 | for text without `\r`, joining the lines with `\n` gives the text back |
| TextUtilities.ReplaceSpacesForNewline | src/tools/text.utilities.ts:44-46 | the length is kept, exactly the former space positions become `\n`, no space remains, and a non-string gives `""` |
| PathTools.IsPathIffSeparator | src/modules/system/tools/path.ts:32-38 | a value is a path iff it is a string containing `/` or `\` |
| PathTools.IsPath | src/modules/system/tools/path.ts:32-38 | stated by `PathTools.IsPathIffSeparator` |
| PathTools.Resolved | src/modules/system/tools/path.ts:55-57 | an absolute path is kept and a relative one goes to the host's `resolve(__dirname, path)` |
| PathTools.ResolvePathAsWritten | src/modules/system/tools/path.ts:47-59 | as written: the same cases, and with quoting the result goes through the first-occurrence loop, which only adds `"` |
| PathTools.ResolvePath | src/modules/system/tools/path.ts:47-59 | with the corrected quoting: a non-path comes back unchanged; otherwise the path is kept when absolute or resolved by the host when relative, and with quoting that result gets every spaced segment quoted once, only `"` being added |
| PathTools.ResolvePathDiffersOnlyInQuoting | src/modules/system/tools/path.ts:47-59 | the as-written and corrected `resolvePath` agree without quoting, and with quoting wherever the two quotings agree on the resolved path |
| PathTools.ResolveSpacedPathAsWritten | src/modules/system/tools/path.ts:69-92 | the loop as written only inserts `"`: removing quotes from input and output gives the same text, the output is never shorter, and a path without spaces is unchanged |
| PathTools.RepeatedSegmentQuotedTwice | src/modules/system/tools/path.ts:78-89 | on `a b/a b` the loop as written returns `""a b""/a b`: the first segment is quoted twice and the second is left bare |
| PathTools.QuotedTwiceHasAdjacentQuotes | src/modules/system/tools/path.ts:78-89 | that twice-quoted shape opens with two adjacent quotes, for any segment, which the corrected quoting never produces |
| PathTools.ResolveSpacedPath | src/modules/system/tools/path.ts:69-92 | quoting each match in place inserts exactly two `"` per spaced match and nothing else, and leaves a path without spaces unchanged |
| PathTools.QuoteFromErasesToInput | src/modules/system/tools/path.ts:78-89 | the in-place quoting of a suffix only inserts `"`: with every `"` removed it equals the suffix with every `"` removed |
| PathTools.QuoteFromLength | src/modules/system/tools/path.ts:78-89 | the in-place quoting of a suffix is longer than it by exactly two characters per spaced match |
| PathTools.ResolveSpacedPathNoAdjacentQuotes | src/modules/system/tools/path.ts:69-92 | for a path without quotes, the corrected quoting never places two `"` side by side and erases back to the input |
| PathTools.NoSpaceNoMatches | src/modules/system/tools/path.ts:72-75 | text without a space has no spaced-word match |
| PathTools.QuoteEachFirstOccurrence | src/modules/system/tools/path.ts:78-89 | replacing each match's first occurrence by its quoted form only adds quotes, at most two per match |
| ScanBuilder.SearchTerms | src/modules/system/tools/linux.scan.ts:50-52 | a single name becomes a one-element list, a name list is used as given, and no name gives one unset entry |
| ScanBuilder.DirectoryOr | src/modules/system/tools/scan.builder.ts:52-55 | the search directory is the option's non-empty directory, else the platform root |
| ScanBuilder.KeptNames | src/modules/system/tools/scan.builder.ts:133-139 | the falsy names are dropped, so at most as many names remain and none is empty |
| ScanBuilder.KeptNamesOfFilled | src/modules/system/tools/scan.builder.ts:133-146 | when every name is set, all of them are kept, in input order |
| ScanBuilder.KeptNamesOfUnset | src/modules/system/tools/scan.builder.ts:137-139 | when no name is set, nothing is kept |
| ScanBuilder.ExtensionSuffix | src/modules/system/tools/scan.builder.ts:130-143 | the suffix appended to a name is empty or starts with `.` |
| ScanBuilder.ExtensionDotOptional | src/modules/system/tools/scan.builder.ts:130 | `exe` and `.exe` give the same suffix, since only the first `.` is removed |
| ScanBuilder.MapFileExtensions | src/modules/system/tools/scan.builder.ts:123-147 | a non-array gives `[]`; otherwise each kept name, in order, is followed by the normalised extension suffix |
| ScanBuilder.MapFileExtensionsOfUnset | src/modules/system/tools/scan.builder.ts:137-139 | a list of unset names maps to nothing |
| ScanBuilder.NoSuffixKeepsNames | src/modules/system/tools/scan.builder.ts:141-143 | with no extension the mapped names are the bare kept names |
| ScanBuilder.StripTrailingBackslash | src/modules/system/tools/scan.builder.ts:58-61 | at most one trailing backslash is removed, and only when present |
| ScanBuilder.BuildWindowsSearchOptions | src/modules/system/tools/scan.builder.ts:43-68 | exactly one clause: `/R "<directory without trailing \>"`, two spaces, then the mapped names joined by spaces |
| ScanBuilder.WindowsSearchWords | src/modules/system/tools/scan.builder.ts:63-65 | the names in the Windows clause can be split back out, in order |
| ScanBuilder.BuildLinuxSearchOptions | src/modules/system/tools/scan.builder.ts:80-113 | exactly one argument: bare names for `application`, `exe` as the default extension for `executable`, and `*` for any other scope |
| ScanBuilder.ApplicationSearchWords | src/modules/system/tools/scan.builder.ts:94-97 | for single-word names, splitting the `application` argument at spaces gives back the kept names |
| ScanBuilder.ExecutableNameRejectedAsWritten | src/modules/system/tools/scan.builder.ts:164-187 | as written, any path ending in a listed executable extension is judged not executable |
| ScanBuilder.ExeFileRejectedAsWritten | src/modules/system/tools/scan.builder.ts:155-183 | `run.EXE` matches the case-insensitive extension pattern, yet is rejected as written |
| ScanBuilder.IsExecutableAsWritten | src/modules/system/tools/scan.builder.ts:155-187 | stated by `ScanBuilder.ExecutableNameRejectedAsWritten` and `ScanBuilder.IsExecutableCases` |
| ScanBuilder.IsExecutable | src/modules/system/tools/scan.builder.ts:155-187 | the corrected test; stated by `ScanBuilder.IsExecutableCases` |
| ScanBuilder.IsExecutableCases | src/modules/system/tools/scan.builder.ts:155-187 | the corrected check accepts every listed extension, agrees with the source on other paths, and accepts everything the source accepts |
| ScanBuilder.IsValidPathAsWritten | src/modules/system/tools/scan.builder.ts:197-207 | stated by `ScanBuilder.IsValidPathAgrees` |
| ScanBuilder.IsValidPath | src/modules/system/tools/scan.builder.ts:197-207 | the corrected test; stated by `ScanBuilder.IsValidPathAgrees` and `ScanBuilder.ColonLineInvalid` |
| ScanBuilder.IsValidPathAgrees | src/modules/system/tools/scan.builder.ts:197-207 | the as-written and corrected line tests agree except on application searches for lines named like executables, which the source drops and the corrected test keeps when they have no `:` |
| ScanBuilder.ExecExtensionIgnoresCase | src/modules/system/tools/scan.builder.ts:155 | any stem followed by `.` and a listed extension is recognised |
| ScanBuilder.ColonLineInvalid | src/modules/system/tools/scan.builder.ts:197-207 | a line containing `:` is never a valid path, whatever the scope |
| ScanBuilder.AssociatedFile | src/modules/system/tools/scan.builder.ts:217-237 | the result is the first truthy key contained in the line, or nothing when no key matches |
| ScanBuilder.FileKey | src/modules/system/tools/scan.builder.ts:266-267 | the key a line is filed under is never empty (`stdout` when no key matches) |
| ScanBuilder.RemoveCrLf | src/modules/system/tools/scan.builder.ts:287 | removing `\r\n` pairs never lengthens the text |
| ScanBuilder.RemoveCrLfKeepsText | src/modules/system/tools/scan.builder.ts:287 | text without `\r` is unchanged |
| ScanBuilder.CleanPath | src/modules/system/tools/scan.builder.ts:286-289 | the cleaned path holds no backslash and is no longer than the line |
| ScanBuilder.CleanPathAt | src/modules/system/tools/scan.builder.ts:286-289 | without `\r`, cleaning keeps the length and turns exactly the backslashes into `/` |
| ScanBuilder.CleanPathFixes | src/modules/system/tools/scan.builder.ts:286-289 | a line without `\r` or `\` is already clean |
| ScanBuilder.FiledUnderSnoc | src/modules/system/tools/scan.builder.ts:261-273 | one more output line adds its cleaned form to the end of its own key's list, only if the line is valid |
| ScanBuilder.BuildSearchResponse | src/modules/system/tools/scan.builder.ts:247-277 | stated by `ScanBuilder.BuildSearchResponseGroups`, `ScanBuilder.BuildSearchResponseClean` and `ScanBuilder.FiledUnderFromLines` |
| ScanBuilder.BuildSearchResponseGroups | src/modules/system/tools/scan.builder.ts:247-277 | a key is present iff some valid line is filed under it, and its list is those lines cleaned, in output order |
| ScanBuilder.BuildSearchResponseClean | src/modules/system/tools/scan.builder.ts:270-272 | no stored path holds a backslash |
| ScanBuilder.FiledUnderFromLines | src/modules/system/tools/scan.builder.ts:262-272 | every stored path is the cleaned form of a valid output line without `:` |
| SystemScan.LinuxCommandLine | src/modules/system/tools/linux.scan.ts:53-65 | `whereis` for scope `application`, else `find`, then the single search argument, then ` 2>/dev/null` |
| SystemScan.LinuxOutputLines | src/modules/system/tools/linux.scan.ts:71-75 | after spaces become line breaks, no output line holds a space, `\n` or `\r` |
| SystemScan.LinuxWhereIs | src/modules/system/tools/linux.scan.ts:45-87 | missing options reject; stderr or empty stdout gives null; otherwise the response is the search response of the space-split output lines |
| SystemScan.LinuxPathsAreWords | src/modules/system/tools/linux.scan.ts:67-83 | every path the Linux scan reports is free of spaces, `:` and backslashes |
| SystemScan.WindowsCommandLine | src/modules/system/tools/windows.scan.ts:49-56 | `WHERE`, a space, then the single clause of the Windows search builder |
| SystemScan.WindowsWhereIs | src/modules/system/tools/windows.scan.ts:38-74 | missing options reject; an exec error or stderr gives undefined; otherwise the response is the search response of the newline-split stdout |
| SystemScan.WindowsPathsHaveNoColon | src/modules/system/tools/windows.scan.ts:64-74 | no reported Windows path holds `:`, so drive-qualified paths never appear |
| CoreOS.NewProvider | src/modules/system/interfaces/os.ts:202-206 | the provider's name is the resolved form of the given name |
| CoreOS.ResolveProvider | src/modules/system/interfaces/os.ts:341-343 | the base provider keeps the name as given |
| CoreOS.BaseProviderKeepsName | src/modules/system/interfaces/os.ts:202-206 | a base provider's name is exactly the one it was built with |
| CoreOS.ResolvePath | src/modules/system/interfaces/os.ts:352-354 | the base provider leaves paths unchanged |
| CoreOS.BuildExecutablePath | src/modules/system/interfaces/os.ts:364-369 | the base provider's executable path is the path itself |
| CoreOS.NormalizeFlags | src/modules/system/interfaces/os.ts:399-401 | an array is used as given and any other value becomes a one-element list |
| CoreOS.KeepValidStrings | src/modules/system/interfaces/os.ts:407-417 | only string items that pass validation are kept |
| CoreOS.KeepValidStringsOrder | src/modules/system/interfaces/os.ts:407-417 | filtering distributes over concatenation, so input order is kept |
| CoreOS.BuildExecutableFlags | src/modules/system/interfaces/os.ts:398-420 | the flags are the validated strings of the normalised list, never more than it holds |
| CoreOS.NonStringScalarGivesNothing | src/modules/system/interfaces/os.ts:399-416 | a non-array, non-string argument such as `undefined` gives `[]` |
| CoreOS.AllStringFlagsKept | src/modules/system/interfaces/os.ts:429-431 | the default validation accepts every string, so an all-string array comes back unchanged |
| CoreOS.BuildExecutable | src/modules/system/interfaces/os.ts:379-389 | the executable records the path, the provider's executable path, the validated flags and no spawn options |
| CoreOS.BaseExecutablePathIsFilePath | src/modules/system/interfaces/os.ts:364-389 | for the base provider, the executable path equals the file path |
| LinuxProvider.New | src/modules/system/linux/LinuxProvider.ts:73-78 | the provider keeps the host's platform name and reports platform `linux` |
| LinuxProvider.ResolvePath | src/modules/system/linux/LinuxProvider.ts:224-226 | the result holds no backslash and has no whitespace at either end |
| LinuxProvider.ResolvePathIdempotent | src/modules/system/linux/LinuxProvider.ts:224-226 | resolving twice gives the same as once |
| LinuxProvider.ResolvePathRewritesBackslashes | src/modules/system/linux/LinuxProvider.ts:224-226 | on a trimmed path, resolving keeps the length and turns exactly the backslashes into `/` |
| LinuxProvider.EntryPrefix | src/modules/system/linux/LinuxProvider.ts:240-242 | a truthy entry point contributes itself and a space, anything else nothing |
| LinuxProvider.BuildExecutablePath | src/modules/system/linux/LinuxProvider.ts:236-244 | the resolved path, preceded by the entry point and a space when one is set |
| LinuxProvider.Kill | src/modules/system/linux/LinuxProvider.ts:198-214 | `kill` for a numeric id, `pkill` otherwise, always with the single argument `-9 <target>` |
| LinuxProvider.NameValue | src/modules/system/linux/LinuxProvider.ts:119-126 | a line's value is reported only for key `NAME` and a non-empty text between the first and second `=` |
| LinuxProvider.FirstName | src/modules/system/linux/LinuxProvider.ts:117-129 | the result is empty iff no line has a `NAME` value, else it is the value of the first such line |
| LinuxProvider.GetDistribution | src/modules/system/linux/LinuxProvider.ts:105-130 | empty iff no line of the file has a `NAME` value; otherwise the value holds no `=` |
| LinuxProvider.GetDistributionFirstLine | src/modules/system/linux/LinuxProvider.ts:112-126 | a file starting `NAME=<value>` reports that value |
| LinuxProvider.GetProviderName | src/modules/system/linux/LinuxProvider.ts:85-87 | the provider name, then the distribution in parentheses, with no `"` inside them |
| LinuxProvider.ProviderNameDropsQuotes | src/modules/system/linux/LinuxProvider.ts:85-87 | the parenthesised part is the distribution with every `"` removed |
| LinuxProvider.HomePath | src/modules/system/linux/LinuxProvider.ts:252-254 | the environment value when it is non-empty, else the home directory |
| LinuxProvider.ApplicationPaths | src/modules/system/linux/LinuxProvider.ts:262-271 | six fixed absolute directories without backslashes |
| LinuxProvider.Install | src/modules/system/linux/LinuxProvider.ts:155-159 | installing never succeeds |
| LinuxProvider.Update | src/modules/system/linux/LinuxProvider.ts:167-171 | updating never succeeds |
| WindowsProvider.ResolveProvider | src/modules/system/windows/WindowsProvider.ts:192-194 | `win32` becomes `Windows`; any other name is kept |
| WindowsProvider.New | src/modules/system/windows/WindowsProvider.ts:78-82 | the provider's name is the resolved platform name and its platform is `windows` |
| WindowsProvider.NewOnWin32 | src/modules/system/windows/WindowsProvider.ts:78-82 | on `win32` the provider is named `Windows` |
| WindowsProvider.GetProviderName | src/modules/system/windows/WindowsProvider.ts:90-92 | the name the provider stores |
| WindowsProvider.GetProviderNameOfNew | src/modules/system/windows/WindowsProvider.ts:78-92 | a provider built on `win32` reports `Windows`; on any other platform it reports that platform's name |
| WindowsProvider.ResolvePath | src/modules/system/windows/WindowsProvider.ts:204-206 | slashes become backslashes before the shared path resolution |
| WindowsProvider.ResolvePathAbsolute | src/modules/system/windows/WindowsProvider.ts:204-206 | an absolute path without quoting keeps its length and loses every `/` |
| WindowsProvider.EntryPrefix | src/modules/system/windows/WindowsProvider.ts:220-222 | a truthy entry point contributes itself and a space, anything else nothing |
| WindowsProvider.JoinedFlags | src/modules/system/windows/WindowsProvider.ts:223 | an array of flags joins with single spaces; no flags give `""`; a truthy non-array value has no `join` and fails |
| WindowsProvider.JoinTexts | src/modules/system/windows/WindowsProvider.ts:223 | each flag is converted to text one for one, as `join` does |
| WindowsProvider.BuildExecutablePath | src/modules/system/windows/WindowsProvider.ts:216-224 | the optional entry prefix, the quoted resolved path and a space, then the joined flags; it fails exactly when joining fails |
| WindowsProvider.BuildExecutablePathPlain | src/modules/system/windows/WindowsProvider.ts:216-224 | without options the result is the quoted path followed by a trailing space |
| WindowsProvider.Kill | src/modules/system/windows/WindowsProvider.ts:170-183 | `TASKKILL` with exactly `/pid <id> /f /t`, the id taken from a numeric `pid` when present |
| WindowsProvider.KillChildSameAsId | src/modules/system/windows/WindowsProvider.ts:174-179 | killing a child with a pid issues the same command as killing that pid |
| WindowsProvider.DetachedOf | src/modules/system/windows/WindowsProvider.ts:242-245 | the process is detached iff the options ask for a truthy `detached` |
| WindowsProvider.BuildExecutable | src/modules/system/windows/WindowsProvider.ts:234-247 | records the path, the executable path and the validated flags, with `shell` set and `detached` defaulting to false |
| WindowsProvider.HomePath | src/modules/system/windows/WindowsProvider.ts:255-257 | `USERPROFILE` when non-empty, else the home directory |
| WindowsProvider.ApplicationPaths | src/modules/system/windows/WindowsProvider.ts:265-271 | three entries: a path under the home directory, then the two Program Files constants |
| WindowsProvider.Install | src/modules/system/windows/WindowsProvider.ts:127-133 | installing never succeeds |
| WindowsProvider.Update | src/modules/system/windows/WindowsProvider.ts:137-143 | updating never succeeds |
| Build.PlatformOr | src/modules/system/build.ts:35-48 | a given non-empty platform is used, else the process platform |
| Build.IsWindows | src/modules/system/build.ts:35-48 | stated by `Build.PlatformTestsAreSubstringTests` |
| Build.IsLinux | src/modules/system/build.ts:35-48 | stated by `Build.PlatformTestsAreSubstringTests` |
| Build.PlatformTestsAreSubstringTests | src/modules/system/build.ts:35-48 | for every platform name, `isWindows` holds iff `win` occurs in it and `isLinux` iff `linux` occurs in it |
| Build.DarwinCountsAsWindows | src/modules/system/build.ts:35-48 | `win32` and `darwin` are Windows; `linux` is Linux and not Windows |
| Build.PiModelIdsShape | src/modules/system/build.ts:61-71 | every hardware id in the table maps to a non-empty model name |
| Build.PiModel | src/modules/system/build.ts:61-71 | a model is found iff the id is a table key, and it is non-empty |
| Build.LookUp | src/modules/system/build.ts:87 | a lookup succeeds iff the key is in the table, and then returns that key's entry |
| Build.PiModelOfKey | src/modules/system/build.ts:61-71 | every key of the table finds its model |
| Build.HardwarePrefixIsNoKey | src/modules/system/build.ts:61-87 | no text starting with `Hardware` is a key of the table |
| Build.HardwareIdAsWritten | src/modules/system/build.ts:84-86 | as written, the id is the text from `Hardware` onwards, or the whole text without it |
| Build.IsRaspbianAsWritten | src/modules/system/build.ts:79-91 | as written, no cpuinfo gives no model |
| Build.RaspbianNeverRecognisedAsWritten | src/modules/system/build.ts:84-87 | as written, a cpuinfo containing `Hardware` never yields a model |
| Build.AfterColon | src/modules/system/build.ts:79-91 | the text after the first `:` of a line, if it has one |
| Build.HardwareValue | src/modules/system/build.ts:79-91 | a value is read only from a line starting `Hardware` that has a `:` |
| Build.FirstHardware | src/modules/system/build.ts:79-91 | absent iff no line is a hardware line |
| Build.HardwareId | src/modules/system/build.ts:79-91 | the trimmed value of the first `Hardware` line, absent iff there is none |
| Build.HardwareIdOfFirstLine | src/modules/system/build.ts:79-91 | a file starting `Hardware\t: <id>` reports `<id>` |
| Build.IsRaspbian | src/modules/system/build.ts:79-91 | the corrected check returns the table's model for the hardware id, and nothing without cpuinfo |
| Build.RaspbianRecognised | src/modules/system/build.ts:61-91 | every Raspberry Pi id in the table is recognised from a cpuinfo `Hardware` line |
| Build.ChooseProvider | src/modules/system/build.ts:98-118 | a factory wins; then Windows is checked before Linux; Linux gives Raspbian with the board's model iff the board test names one; any other platform gives nothing |
| Build.GetSystemProviderAsWritten | src/modules/system/build.ts:98-118 | as written, a cpuinfo with a `Hardware` line never selects the Raspberry Pi provider, and off the Linux branch the choice is the corrected one |
| Build.GetSystemProvider | src/modules/system/build.ts:98-118 | the corrected selection: a factory wins; then Windows is checked before Linux; Linux gives Raspbian iff the `Hardware` line names a Pi model; any other platform gives nothing |
| Build.LinuxChoosesByBoard | src/modules/system/build.ts:105-116 | on Linux, both as written and corrected, the provider depends only on whether the board test names a Pi model |
| Build.PiOnLinuxChosenAsWrittenAndCorrected | src/modules/system/build.ts:79-116 | on a Pi whose cpuinfo starts with `Hardware\t: <id>`, the source picks the plain Linux provider and the corrected selection the Raspberry Pi provider for that model |
| Platform.ResolveFor | src/modules/launcher/interfaces/resolver/ApplicationPathResolver.ts:40-48 | the map's name for the given platform (`linux` when none is given), and nothing when the map has none |
| Platform.ResolveForEmptyPlatform | src/modules/launcher/interfaces/resolver/ApplicationPathResolver.ts:44-47 | an empty platform string is looked up as given, as `??` keeps it |
| Platform.EntryFor | src/modules/launcher/tools/platform.ts:40-50 | the first entry with the key, or nothing iff no entry has it |
| Platform.CreateDefaultPlatformMap | src/modules/launcher/tools/platform.ts:40-50 | one entry keyed by the name, whose only platform is `linux`, mapping to the name |
| Platform.DefaultMapRoundTrip | src/modules/launcher/tools/platform.ts:40-50 | resolving the default map's entry without a platform gives the name back |
| Platform.DefaultMapOnlyLinux | src/modules/launcher/tools/platform.ts:31-50 | the default map names nothing on any platform but `linux` |
| ApplicationResolver.CommonPaths | src/modules/launcher/interfaces/resolver/ApplicationResolver.ts:363-366 | the provider's application paths followed by the home path |
| ApplicationResolver.SearchPaths | src/modules/launcher/interfaces/resolver/ApplicationResolver.ts:97-103 | a user directory is searched before the common paths |
| ApplicationResolver.FirstHit | src/modules/launcher/interfaces/resolver/ApplicationResolver.ts:270-291 | the position of the first directory whose scan lists the name: no earlier directory does, and that one does when it exists |
| ApplicationResolver.Find | src/modules/launcher/interfaces/resolver/ApplicationResolver.ts:254-292 | a non-string name is not found; otherwise the first directory whose scan lists the name decides, and its first path is returned |
| ApplicationResolver.FirstLocated | src/modules/launcher/interfaces/resolver/ApplicationResolver.ts:111-130 | the position of the first candidate name that is located: no earlier name is, and that one is when it exists |
| ApplicationResolver.FindFirst | src/modules/launcher/interfaces/resolver/ApplicationResolver.ts:111-130 | not found iff no name is located; otherwise it is the search result of the first located name |
| ApplicationResolver.SearchNames | src/modules/launcher/interfaces/resolver/ApplicationResolver.ts:111-131 | unresolved iff no candidate is located; otherwise the first located name wins and reports itself |
| ApplicationResolver.ResolveAsWritten | src/modules/launcher/interfaces/resolver/ApplicationResolver.ts:77-131 | as written: no app gives undefined; an existing executable path short-circuits; otherwise a single name is searched over the user directory then the common paths, and a list or a map goes to the map search |
| ApplicationResolver.NameListSkipsNameSearchAsWritten | src/modules/launcher/interfaces/resolver/ApplicationResolver.ts:106-111 | as written, a list of names is taken for a platform map and never searched by name |
| ApplicationResolver.Resolve | src/modules/launcher/interfaces/resolver/ApplicationResolver.ts:77-131 | no app gives undefined; an existing executable path short-circuits; otherwise a single name or a list of names is searched in order over the user directory then the common paths, and only a map goes to the map search |
| ApplicationResolver.ResolveSearchesInOrder | src/modules/launcher/interfaces/resolver/ApplicationResolver.ts:97-131 | without an existing executable, a name list is unresolved iff no name is located, and otherwise resolves to the first located name over the user directory then the common paths |
| ApplicationResolver.ResolveSingleName | src/modules/launcher/interfaces/resolver/ApplicationResolver.ts:97-131 | without an existing executable, both versions resolve a single name iff some directory's scan lists it, to the first such directory's first path |
| ApplicationResolver.SingleNameAgrees | src/modules/launcher/interfaces/resolver/ApplicationResolver.ts:77-131 | except for name lists, the corrected and as-written resolve agree |
| ApplicationResolver.UserDirectoryFirst | src/modules/launcher/interfaces/resolver/ApplicationResolver.ts:97-103 | a hit in the user directory is returned before any common path is looked at |
| ApplicationLauncher.New | src/modules/launcher/interfaces/ApplicationLaucher.ts:85-119 | an empty registry within its limit, closing on error by default |
| ApplicationLauncher.CanCreate | src/modules/launcher/interfaces/ApplicationLaucher.ts:306-314 | stated by `ApplicationLauncher.CanCreateIff` |
| ApplicationLauncher.CanCreateIff | src/modules/launcher/interfaces/ApplicationLaucher.ts:306-314 | a launch is allowed iff there is no positive limit or the count is below it |
| ApplicationLauncher.StoreProcess | src/modules/launcher/interfaces/ApplicationLaucher.ts:285-298 | an existing key is never overwritten, a new key is added, and every other entry is kept |
| ApplicationLauncher.StoreProcessKeyed | src/modules/launcher/interfaces/ApplicationLaucher.ts:285-298 | storing keeps each entry under its own application name |
| ApplicationLauncher.RemoveInstance | src/modules/launcher/interfaces/ApplicationLaucher.ts:427-444 | true iff the key was present; afterwards it is absent and every other entry is unchanged |
| ApplicationLauncher.Drop | src/modules/launcher/interfaces/ApplicationLaucher.ts:228-240 | the entry keyed by the name is removed when some entry has that application name; otherwise nothing changes |
| ApplicationLauncher.DropKeyed | src/modules/launcher/interfaces/ApplicationLaucher.ts:228-240 | in a registry keyed by application name, dropping removes exactly that key |
| ApplicationLauncher.DropAll | src/modules/launcher/interfaces/ApplicationLaucher.ts:247-260 | every entry stored under its own name is removed, and nothing is added or altered |
| ApplicationLauncher.DropAllEmpties | src/modules/launcher/interfaces/ApplicationLaucher.ts:247-260 | a keyed registry ends up empty |
| ApplicationLauncher.DropAllIdempotent | src/modules/launcher/interfaces/ApplicationLaucher.ts:247-260 | a second `dropAll` drops nothing more, so the base launch's own `closeAll` after the Chromium one changes nothing |
| ApplicationLauncher.CloseAllTargets | src/modules/launcher/interfaces/ApplicationLaucher.ts:188-206 | exactly the non-empty application names of the stored entries are closed |
| ApplicationLauncher.Prepared | src/modules/launcher/interfaces/chromium/chromium.launcher.ts:105-109 | an exclusive launch with a dropping `closeAll` empties a keyed registry before the base `launch` runs; otherwise the launcher is untouched |
| ApplicationLauncher.Launch | src/modules/launcher/interfaces/ApplicationLaucher.ts:136-169 | on the prepared launcher: a refused launch stores nothing; an unresolved one reports not found; a build failure (the `createProcess` throw caught at lines 164-167) reports failed and leaves the prepared launcher; a start happens iff allowed and resolved to a non-empty executable, and then the registry is the prepared one with the instance and the launch's options stored unless its name is already registered, every other entry kept; a non-exclusive launch that does not start changes nothing |
| ApplicationLauncher.ExclusiveDroppingLaunchStarts | src/modules/launcher/interfaces/chromium/chromium.launcher.ts:105-109 | an exclusive Chromium launch is never refused for capacity: it starts iff an executable is found and built, and then holds only that instance |
| ApplicationLauncher.LaunchWithinLimit | src/modules/launcher/interfaces/ApplicationLaucher.ts:136-169 | a launch never takes the count past a positive limit |
| ApplicationLauncher.SubsetCard | src/modules/launcher/interfaces/ApplicationLaucher.ts:136-169 | a subset of keys is no larger than its superset, so dropping never raises the count |
| ApplicationLauncher.RunWithinLimit | src/modules/launcher/interfaces/ApplicationLaucher.ts:136-169 | any sequence of launch, close and drop events keeps the count within a positive limit and keeps the limit |
| ApplicationLauncher.OnProcessCloseAsWritten | src/modules/launcher/interfaces/ApplicationLaucher.ts:364-390 | as written, a close for an unknown name fails, because options are read before the guard |
| ApplicationLauncher.SecondInstanceCloseCrashesAsWritten | src/modules/launcher/interfaces/ApplicationLaucher.ts:368-371 | as written, closing the same name twice fails on the second close |
| ApplicationLauncher.OnProcessClose | src/modules/launcher/interfaces/ApplicationLaucher.ts:364-390 | the entry is removed, and a relaunch with its options is scheduled iff it was present with `restartOnExit === true` |
| ApplicationLauncher.OnProcessCloseAgrees | src/modules/launcher/interfaces/ApplicationLaucher.ts:364-390 | whenever the as-written close succeeds, it agrees with the corrected one |
| ApplicationLauncher.OnProcessCloseKeyed | src/modules/launcher/interfaces/ApplicationLaucher.ts:364-390 | closing keeps the registry keyed and never grows it |
| ApplicationLauncher.OnProcessError | src/modules/launcher/interfaces/ApplicationLaucher.ts:398-406 | an error closes the instance iff `closeOnError` is set |
| ChromiumLauncher.DefaultFlagsShape | src/modules/launcher/interfaces/chromium/configuration/flags.ts:32-74 | every default flag is non-empty |
| ChromiumLauncher.NonEmpty | src/modules/launcher/interfaces/chromium/chromium.launcher.ts:205-222 | exactly the non-empty entries are kept |
| ChromiumLauncher.NonEmptyConcat | src/modules/launcher/interfaces/chromium/chromium.launcher.ts:205-221 | filtering distributes over concatenation, so order is kept |
| ChromiumLauncher.NonEmptyKeepsAll | src/modules/launcher/interfaces/chromium/chromium.launcher.ts:205-211 | a list without empty entries is kept whole |
| ChromiumLauncher.PushNonEmpty | src/modules/launcher/interfaces/chromium/chromium.launcher.ts:205-222 | one merge loop appends exactly the non-empty strings of its input after what was merged before, in order |
| ChromiumLauncher.Flags | src/modules/launcher/interfaces/chromium/chromium.launcher.ts:199-225 | the non-empty defaults followed by the non-empty overrides, each in original order |
| ChromiumLauncher.FlagsLength | src/modules/launcher/interfaces/chromium/chromium.launcher.ts:202-216 | without overrides the defaults come back whole; the length is the defaults plus the non-empty overrides |
| ChromiumLauncher.LaunchExtras | src/modules/launcher/interfaces/chromium/chromium.launcher.ts:113-128 | the debugging flag only for a numeric port, then the url or the default url, then `--kiosk` only when truthy |
| ChromiumLauncher.Normalise | src/modules/launcher/interfaces/chromium/chromium.launcher.ts:88-136 | a missing app becomes the platform map, the flags are the merged defaults, user flags and extras, and a missing executable path falls back to `CHROME_PATH` |
| ChromiumLauncher.NormaliseDefaults | src/modules/launcher/interfaces/chromium/chromium.launcher.ts:91-136 | without options the flags are the defaults then the default url |
| ChromiumLauncher.NormaliseKeepsUserFlags | src/modules/launcher/interfaces/chromium/chromium.launcher.ts:97-136 | the user's non-empty flags come after the defaults and before the extras |
| ChromiumLauncher.New | src/modules/launcher/interfaces/chromium/chromium.launcher.ts:71 | a fresh launcher uses the Chrome application map and has no instances |
| ChromiumLauncher.SetPlatformMap | src/modules/launcher/interfaces/chromium/chromium.launcher.ts:153-157 | a missing map is ignored; a given one replaces the current map |
| ChromiumLauncher.NamesOn | src/modules/launcher/interfaces/chromium/chromium.launcher.ts:174-187 | a name is listed iff some entry names it for the platform |
| ChromiumLauncher.KillTargets | src/modules/launcher/interfaces/chromium/chromium.launcher.ts:164-191 | exactly the non-empty platform names of the map's entries are killed |
| ChromiumLauncher.CloseAll | src/modules/launcher/interfaces/chromium/chromium.launcher.ts:164-191 | every instance is dropped, the map is kept, and the kill targets go out |
| ChromiumLauncher.DefaultLinuxNames | src/modules/launcher/interfaces/chromium/configuration/chromium.map.ts:1-68 | the Linux names of the default map, in entry order |
| ChromiumLauncher.DefaultDarwinNames | src/modules/launcher/interfaces/chromium/configuration/chromium.map.ts:1-68 | no entry of the default map names a macOS application |
| ChromiumLauncher.DefaultMapKills | src/modules/launcher/interfaces/chromium/configuration/chromium.map.ts:1-68 | with the default map, all six browser names are killed on Linux, in map order, and nothing on macOS |
| NpmService.New | src/modules/npm/services/npm.service.ts:105-130 | a fresh service has an empty queue and is idle |
| NpmService.UpdateModule | src/modules/npm/services/npm.service.ts:153-161 | the given module, or the pseudo-module `update` with no version, not global and not a development dependency |
| NpmService.CreateExecutableArguments | src/modules/npm/services/npm.service.ts:202-228 | two arguments: `update --save` exactly for the name `update`; else `install <name>[:<version>]`, then `-g` iff global is `true`, else `--save-dev` iff development is truthy |
| NpmService.Enqueue | src/modules/npm/services/npm.service.ts:253-255 | the token goes to the back and nothing else changes |
| NpmService.Dequeue | src/modules/npm/services/npm.service.ts:263-265 | the back token is removed and returned; an empty queue gives nothing |
| NpmService.EnqueueDequeue | src/modules/npm/services/npm.service.ts:253-265 | the queue is last-in first-out: dequeuing right after enqueuing restores the state and returns the token |
| NpmService.RunChecks | src/modules/npm/services/npm.service.ts:274-322 | an empty queue clears `busy`; otherwise `busy` is set, exactly one token is removed, and its install starts iff it has an id and a string name |
| NpmService.Install | src/modules/npm/services/npm.service.ts:105-130 | a missing module or falsy name changes nothing; otherwise the module is queued, and an idle service checks at once |
| NpmService.IdleInstallStartsNewest | src/modules/npm/services/npm.service.ts:105-130 | an idle service installs the module it was just given and leaves older tokens queued |
| NpmService.IsValid | src/modules/npm/services/npm.service.ts:191-193 | a module is valid iff its name is a string; used by `NpmService.RunChecks`, and stated by `NpmService.InvalidNameQueuedButNeverStarted` |
| NpmService.InvalidNameQueuedButNeverStarted | src/modules/npm/services/npm.service.ts:106-108 | a truthy non-string name passes admission, but its token is dropped without an install |
| NpmService.StartOrder | src/modules/npm/services/npm.service.ts:282-293 | the startable tokens of the queue, and only those |
| NpmService.StartOrderAppend | src/modules/npm/services/npm.service.ts:253-293 | a newly queued startable token is installed before all older ones |
| NpmService.DrainStartsNewestFirst | src/modules/npm/services/npm.service.ts:274-322 | repeated checks install exactly the startable tokens, newest first, and leave the service idle and empty |
| NpmService.VersionsUrl | src/modules/npm/services/npm.service.ts:503-507 | the registry address followed by the module name |
| NpmService.PackageUrl | src/modules/npm/services/npm.service.ts:471-494 | the version defaults to `latest`, and a non-empty version is one more path segment after the name |
| NpmService.PackageUrlExtendsVersionsUrl | src/modules/npm/services/npm.service.ts:471-507 | the package URL always starts with the module's versions URL |
| Directory.GetNamedPath | src/tools/io.ts:198-201 | the directory, `/`, then the name |
| Directory.DirectoryPath | src/tools/io.ts:39-165 | the directory part of single-line text is a prefix ending in `/` or `\`, or empty, with no separator after it |
| Directory.DirectoryPathUnique | src/tools/io.ts:39-165 | any prefix that ends at a separator with none after it is the directory part |
| Directory.DirectoryPathIdempotent | src/tools/io.ts:39-165 | taking the directory part twice gives the same as once |
| Directory.DirectoryOfNamedPath | src/tools/io.ts:165-201 | the directory part of a named path is its directory followed by `/` |
| Directory.LastNonEmpty | src/tools/io.ts:169-180 | the last non-empty piece when there is one, else the fallback |
| Directory.DirectoryName | src/tools/io.ts:151-182 | with `useNative`, Node's `dirname`; otherwise the directory part, or with `nameOnly` exactly its last non-empty piece between separators, falling back to the directory part when there is none |
| Directory.DirectoryCatching | src/tools/io.ts:131-188 | with `skipIfDirectory`, only a path known to be a directory comes back unchanged; a failed status check counts as not a directory |
| Directory.DirectoryThrowing | src/modules/io/tools/directory.ts:58-107 | a failed status check with `skipIfDirectory` returns the input unchanged |
| Directory.DirectoryCopiesAgree | src/modules/io/tools/directory.ts:71-108 | the two `directory` copies agree except when `skipIfDirectory` is set and the status check fails; then one returns the input and the other the directory name |
| Directory.LastPieceOfDirectory | src/tools/io.ts:167-182 | the name of a directory part ending in `<name>/` is that name |
| Directory.NameOnlyOfFile | src/modules/io/tools/directory.ts:87-102 | `nameOnly` on `<dir>/<name>/<file>` gives `<name>` |
| DirectoryWalk.FileRecords | src/tools/io/directory.helper.ts:109-117 | each file of a listing becomes one record with its name and full path |
| DirectoryWalk.GetDirectoryFilesAsWritten | src/tools/io/directory.helper.ts:70-133 | as written, a limit at depth 0 settles with nothing, and a root that is not a readable directory never settles |
| DirectoryWalk.UnreadableSubdirectoryHangsAsWritten | src/tools/io/directory.helper.ts:87-93 | as written, an unreadable subdirectory leaves the walk unsettled, while the corrected walk still collects the sibling file |
| DirectoryWalk.UnderParent | src/tools/io/directory.helper.ts:109-117 | a file named under a directory is collected under that directory's parent chain |
| DirectoryWalk.GetMembers | src/tools/io/directory.helper.ts:70-133 | a record is collected iff its file is reachable (the reference predicate `Reaches`: from the directory, within the depth limit, directly or through listed subdirectories) and reading it gives the record's buffer |
| DirectoryWalk.EntriesMembers | src/tools/io/directory.helper.ts:98-117 | the same characterisation for one listing |
| DirectoryWalk.GetDirectoryFilesExactly | src/tools/io.ts:229-292 | `getDirectoryFiles` misses no reachable readable file and collects nothing else |
| DirectoryWalk.Get | src/tools/io/directory.helper.ts:70-133 | every collected record has a full path built by `getNamedPath` below the directory, and its buffer is that file's contents |
| DirectoryWalk.Entries | src/tools/io/directory.helper.ts:98-117 | the same holds for every record collected from one directory listing |
| DirectoryWalk.GetDirectoryFiles | src/tools/io.ts:229-292 | the corrected walk collects only readable files named below the root, with their contents; a limit at depth 0 or a root that is not a directory gives nothing |
| DirectoryWalk.GetAsWritten | src/tools/io/directory.helper.ts:77-129 | stated by `DirectoryWalk.GetAsWrittenAgrees` and `DirectoryWalk.GetDirectoryFilesAsWritten` |
| DirectoryWalk.GetAsWrittenAgrees | src/tools/io/directory.helper.ts:70-133 | the as-written walk settles exactly when no unreadable directory lies within reach, and then gives the corrected walk's records |
| DirectoryWalk.EntriesAsWrittenAgrees | src/tools/io/directory.helper.ts:98-117 | the same agreement, listing by listing |
| DirectoryWalk.EntriesConcat | src/tools/io/directory.helper.ts:98-108 | a listing's records are the first entry's records followed by the rest's, so the walk is depth-first |
| DirectoryWalk.NegativeMaxLevelCollectsNothing | src/tools/io/directory.helper.ts:73-83 | a negative `maxLevel` collects nothing |
| DirectoryWalk.ZeroMaxLevelIsUnlimited | src/tools/io/directory.helper.ts:73 | `maxLevel` 0 collects the same as no limit |
| DirectoryWalk.ZeroMaxLevelEntries | src/tools/io/directory.helper.ts:73-83 | the same, listing by listing |
| DirectoryWalk.OwnFiles | src/tools/io/directory.helper.ts:109-117 | a root's own files are collected with `getNamedPath` full paths |
| DirectoryWalk.MaxLevelOneReadsRootOnly | src/tools/io/directory.helper.ts:79-83 | with `maxLevel` 1 only the root's own files are collected |
| ThreadPool.Coalesce | src/modules/threads/ThreadPool.ts:43-46 | `undefined` and `null` fall back; every other value is kept |
| ThreadPool.New | src/modules/threads/ThreadPool.ts:43-46 | the size is the option's size, or the CPU count when it is missing or null; the file is the option's file |
| ThreadPool.Size | src/modules/threads/ThreadPool.ts:75-81 | only a positive number replaces the size, the file is untouched, and the stored size is reported |
| ThreadPool.File | src/modules/threads/ThreadPool.ts:90-96 | only a string replaces the path, the size is untouched, and the stored path is reported |
| ThreadPool.SizeSetThenGet | src/modules/threads/ThreadPool.ts:75-81 | a size that was set reads back, and setting it again changes nothing |
| ThreadPool.SizeIgnoresInvalid | src/modules/threads/ThreadPool.ts:75-79 | a non-positive or non-numeric size changes nothing |
| ThreadPool.SizeFileCommute | src/modules/threads/ThreadPool.ts:75-96 | the two setters are independent and commute |
| ThreadPool.AutoKeptUntilReplaced | src/modules/threads/ThreadPool.ts:43-81 | a pool built with `"auto"` reports `"auto"` until a positive number replaces it |

## Left out

- Child processes, streams and their events.
  - `createExecutableStream` (`src/modules/system/interfaces/os.ts:293-319`), `execute`, npm `_systemInstall` and `ApplicationProcess`: only the command strings they run are modelled.
  - The abort hook of the Windows scan, which kills the search process: it reacts to a signal, which a pure model has no counterpart for.
- Timers: the `_runChecks` re-scheduling, the 1000 ms delayed relaunch in `onProcessClose` and `sleep`.
  - The model returns the decision (run again, relaunch with these options) instead of waiting.
  - `DrainStartsNewestFirst` models repeated checks with no new installs in between.
- The network: the registry fetch, `JSON.parse` of its answer and `_downloadTarball`. Only the URLs are modelled.
- `ApplicationResolver.resolveMap`: it races promises under a lock and an abort controller, and ranks candidates by floating-point weights. `Resolve` stops at handing a platform map to it (`MapSearch`).
- Node `path` semantics: `extension`, `filename`, `isFilePath`, `buildPath`, `makeAbsolutePath`, `getFileNameFromPath`.
  - The host's `isAbsolute` and `resolve(__dirname, path)` are the uninterpreted functions `isAbsolute` and `resolveRelative` of a `PathHost`, so the relative branch of `resolvePath` is whatever the host returns.
- The `useNative` option of `directory`: `path.dirname` is an uninterpreted parameter.
- Environment and OS reads: these are parameters.
  - the stat test of `isExecutable`;
  - the text of `/proc/cpuinfo` and `/etc/os-release`;
  - environment variables and the home directory;
  - `process.platform` and the CPU count;
  - `CHROME_PATH`;
  - the random token id;
  - a directory's status.
- `ChromiumLauncher.Normalise`: the remote-debugging port is an integer, so a fractional number is not modelled.
- `ThreadPool.Size`: sizes are integers, so a fractional size is not modelled.
- `DirectoryWalk.GetDirectoryFiles`: `maxLevel` is an optional integer, so a non-numeric `maxLevel` is not modelled.
- `Build.PiModel`: the table is a list of pairs, so a lookup of an inherited object key such as `toString` is not modelled.
- The weights of `chromium.map.ts`: they only serve `resolveMap`.
- `ThreadPool.spawn`: its body is empty, so there is nothing to model.
- File watchers (`FsDetector`, `detector`, `ThreadedDetector`): they are driven by file-system events.
- `connectDebugger` and the `ApplicationProcess` wrapper: they talk to a running browser.
- `ApplicationLauncher.Launch`: executable resolution and process creation are parameters (the resolved path, a path function and the name the process takes), not the resolver itself; whether `closeAll` drops entries is the flag `exclusiveDrops`.
- `PathTools.ResolvePath`: quotes with the corrected `resolveSpacedPath`, while `path.ts:59` calls the loop as written; a path such as `/a b/a b` comes back as `/""a b""/a b` from the source. `PathTools.ResolvePathAsWritten` is the source's behaviour, and `PathTools.ResolvePathDiffersOnlyInQuoting` says where the two part.
- `WindowsProvider.ResolvePath`: built on `PathTools.ResolvePath`, so it inherits the corrected quoting.
- `ScanBuilder.IsValidPath`: uses the corrected `isExecutable`; the source's test drops an application-scope line named like an executable (`/opt/x/run.exe`), and `ScanBuilder.IsValidPathAgrees` states exactly where the two differ.
- `ScanBuilder.BuildSearchResponse`: files lines by the corrected `ScanBuilder.IsValidPath`, so the source's response lacks the executable-named application lines this one keeps.
- `ScanBuilder.BuildSearchResponse`: keys are plain strings, so a line whose file name is an inherited object key such as `constructor` (for which the source's `results[file] || []` yields a function and the `push` throws) is not modelled.
- `ScanBuilder.BuildSearchResponseGroups`: states the grouping of the corrected response, with both caveats of `ScanBuilder.BuildSearchResponse`.
- `SystemScan.LinuxWhereIs`: its response is the corrected search response, as for `ScanBuilder.BuildSearchResponse`.
- `SystemScan.WindowsWhereIs`: its response is the corrected search response, as for `ScanBuilder.BuildSearchResponse`.
- `Build.GetSystemProvider`: uses the corrected board test; as written a Raspberry Pi on Linux gets the plain Linux provider, which `Build.GetSystemProviderAsWritten` and `Build.PiOnLinuxChosenAsWrittenAndCorrected` state.
- `Build.LinuxChoosesByBoard`: its first half is about the corrected selection; its second half covers the source's.
- `Platform.EntryFor`: the map is a list of pairs, so a lookup of an inherited object key such as `toString` (which the source finds on the prototype) is not modelled.
- `ApplicationResolver.Find`: a scan result is a map of strings, so a name that is an inherited object key such as `constructor` is not modelled.
- `ApplicationResolver.Resolve`: the map search itself is `resolveMap`, left out above; `Resolve` and `ApplicationResolver.ResolveAsWritten` only say that a map (and, as written, a list) is handed to it.
- `ApplicationLauncher.RunWithinLimit`: holds for launches handled one at a time; the source awaits between the `canCreate` test and storing the process, so overlapping launches can each pass the test and together exceed the limit. `ApplicationLauncher.LaunchWithinLimit` has the same scope.
- `ChromiumLauncher.Normalise`: returns new options, while the source mutates the caller's options in place; a `restartOnExit` relaunch re-normalises the already merged options, which repeats the default flags, the url and `--kiosk`, and that repetition is not modelled.
- `DirectoryWalk.Entries`: its own contract is soundness only; completeness is `DirectoryWalk.EntriesMembers`, as it is `DirectoryWalk.GetMembers` for `DirectoryWalk.Get` and `DirectoryWalk.GetDirectoryFilesExactly` for `DirectoryWalk.GetDirectoryFiles`.

## Findings

| source | as written | input that shows it | evidently intended | confidence | as-written member | corrected member |
|---|---|---|---|---|---|---|
| src/modules/system/tools/scan.builder.ts:164-187 | the stat test runs only when no executable extension matched, and the function returns `false` otherwise | `run.EXE` (matches `EXEC_REGEX`) is reported not executable | a matching extension means executable; the stat test decides the rest | not executed | ScanBuilder.ExeFileRejectedAsWritten | ScanBuilder.IsExecutableCases |
| src/modules/system/build.ts:84-87 | the hardware id is `cpuinfo.substring(indexOf("Hardware"))`, which starts with `Hardware` and is never a `PI_MODEL_IDS` key | a cpuinfo with `Hardware\t: BCM2711` is not recognised as a Raspberry Pi | the id is the trimmed value after the colon of the `Hardware` line | not executed | Build.RaspbianNeverRecognisedAsWritten | Build.RaspbianRecognised |
| src/tools/io/directory.helper.ts:87-93 | on a `readdir` error the executor returns without resolving or rejecting | a root with one unreadable subdirectory: the walk's promise never settles | an unreadable directory contributes no files (or the error is reported) | not executed | DirectoryWalk.UnreadableSubdirectoryHangsAsWritten | DirectoryWalk.GetAsWrittenAgrees |
| src/modules/system/tools/path.ts:78-89 | each match is quoted by replacing its first occurrence, which may sit inside an already quoted segment | `a b/a b` becomes `""a b""/a b` | every spaced segment is quoted once, in place | not executed | PathTools.RepeatedSegmentQuotedTwice | PathTools.ResolveSpacedPathNoAdjacentQuotes |
| src/modules/launcher/interfaces/ApplicationLaucher.ts:368-371 | `existing.options` is read before the `existing &&` guard | a second close event for the same name (the entry is already removed) throws a `TypeError` | the guard protects the read, and an unknown name schedules nothing | not executed | ApplicationLauncher.SecondInstanceCloseCrashesAsWritten | ApplicationLauncher.OnProcessCloseAgrees |
| src/modules/launcher/interfaces/resolver/ApplicationResolver.ts:106-111 | `typeof app === "object"` is tested before the array case, and an array is an object | `app: ["chromium", "chrome"]` goes to the map search instead of the name search | a list of names is searched in order, first match wins | not executed | ApplicationResolver.NameListSkipsNameSearchAsWritten | ApplicationResolver.ResolveSearchesInOrder |
