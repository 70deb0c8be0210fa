/**
 * The search-command builders and output parsers of
 * `src/modules/system/tools/scan.builder.ts`: the argument string handed to
 * `find` / `whereis` on Linux and to `WHERE` on Windows, the executable test
 * on a path, and the grouping of the command's output lines by search term.
 * The file system call `statSync` is a `Stat` oracle; the provider's
 * `resolvePath` is a function parameter.
 */
module ScanBuilder {
  import opened Js
  import opened Strings

  /** `SearchScope`. */
  datatype Scope = FileScope | ExecutableScope | EnvScope | DirectoryScope | ApplicationScope | AnyScope

  /** `SystemSearchOptions.name`: one search term or an array of them. */
  datatype SearchName = OneName(term: string) | ManyNames(terms: seq<string>)

  /** `SystemSearchOptions` (each field optional). */
  datatype SearchOptions = SearchOptions(
    name: Option<SearchName>,
    scope: Option<Scope>,
    directory: Option<string>,
    extension: Option<string>)

  /** `LINUX_DEFAULT_ROOT`. */
  const LinuxDefaultRoot: string := "/"

  /** `WINDOWS_DEFAULT_ROOT`. */
  const WindowsDefaultRoot: string := "c:\\"

  /**
   * The search terms the scanners pass on: the `name` array itself, or a
   * one-element array holding the single name (`undefined` when unset).
   */
  function SearchTerms(options: Option<SearchOptions>): (terms: seq<Option<string>>)
    ensures options.None? || options.value.name.None? ==> terms == [None]
    ensures options.Some? && options.value.name.Some? && options.value.name.value.OneName? ==>
              terms == [Some(options.value.name.value.term)]
    ensures options.Some? && options.value.name.Some? && options.value.name.value.ManyNames? ==>
              |terms| == |options.value.name.value.terms| &&
              forall j :: 0 <= j < |terms| ==> terms[j] == Some(options.value.name.value.terms[j])
  {
    if options.None? || options.value.name.None? then [None]
    else match options.value.name.value
      case OneName(t) => [Some(t)]
      case ManyNames(ts) => seq(|ts|, j requires 0 <= j < |ts| => Some(ts[j]))
  }

  /** `options.scope || "any"`. */
  function ScopeOf(options: Option<SearchOptions>): Scope {
    if options.Some? && options.value.scope.Some? then options.value.scope.value else AnyScope
  }

  /** `options.extension || ""`. */
  function ExtensionOf(options: Option<SearchOptions>): string {
    if options.Some? && options.value.extension.Some? then options.value.extension.value else ""
  }

  /** `options.directory || root`: an unset or empty directory falls back to `root`. */
  function DirectoryOr(options: Option<SearchOptions>, root: string): (d: string)
    ensures d == root || (options.Some? && Filled(options.value.directory) && d == options.value.directory.value)
  {
    if options.Some? && Filled(options.value.directory) then options.value.directory.value else root
  }

  // ---------------------------------------------------------- mapFileExtensions

  /** The truthy entries of `files`, in order (the ones `mapFileExtensions` keeps). */
  function KeptNames(files: seq<Option<string>>): (names: seq<string>)
    ensures |names| <= |files|
    ensures forall j :: 0 <= j < |names| ==> names[j] != ""
  {
    if |files| == 0 then []
    else (if Filled(files[0]) then [files[0].value] else []) + KeptNames(files[1..])
  }

  /**
   * The suffix appended to each name: the extension with its first `.`
   * removed (`extension.replace(".", "")`), prefixed by `.` when non-empty.
   */
  function ExtensionSuffix(extension: string): (suffix: string)
    ensures suffix == "" || suffix[0] == '.'
  {
    var ext := ReplaceFirst(extension, ".", "");
    if ext == "" then "" else "." + ext
  }

  /** A leading dot on the extension is optional: `".exe"` and `"exe"` give the same suffix. */
  lemma ExtensionDotOptional(e: string)
    requires '.' !in e
    ensures ExtensionSuffix("." + e) == ExtensionSuffix(e)
    ensures ExtensionSuffix(e) == if e == "" then "" else "." + e
  {
    StripLeadingDot(e);
    NoDotUnchanged(e);
  }

  /** Removing the first `.` of `"." + e` leaves `e`. */
  lemma StripLeadingDot(e: string)
    ensures ReplaceFirst("." + e, ".", "") == e
  {
    assert OccursAt("." + e, ".", 0);
    assert IndexOf("." + e, ".") == Some(0);
    assert ("." + e)[1..] == e;
  }

  /** Removing the first `.` of a text without one changes nothing. */
  lemma NoDotUnchanged(e: string)
    requires '.' !in e
    ensures ReplaceFirst(e, ".", "") == e
  {
    ContainsChar(e, '.');
    assert IndexOf(e, ".") == None;
  }

  /**
   * `mapFileExtensions(files, extension)`: every truthy file name, in order,
   * with the extension suffix appended; falsy entries are skipped, and a
   * `files` that is not an array (`None`) gives no entries.
   */
  function MapFileExtensions(files: Option<seq<Option<string>>>, extension: string): (mapped: seq<string>)
    ensures files.None? ==> mapped == []
    ensures files.Some? ==> |mapped| == |KeptNames(files.value)|
    ensures files.Some? ==> forall j :: 0 <= j < |mapped| ==>
              mapped[j] == KeptNames(files.value)[j] + ExtensionSuffix(extension)
  {
    if files.None? then []
    else
      var names := KeptNames(files.value);
      seq(|names|, j requires 0 <= j < |names| => names[j] + ExtensionSuffix(extension))
  }

  /** Entries without a truthy name produce no search words at all. */
  lemma {:induction false} MapFileExtensionsOfUnset(files: seq<Option<string>>, extension: string)
    requires forall j :: 0 <= j < |files| ==> !Filled(files[j])
    ensures MapFileExtensions(Some(files), extension) == []
  {
    KeptNamesOfUnset(files);
  }

  /** No truthy entry, nothing kept. */
  lemma {:induction false} KeptNamesOfUnset(files: seq<Option<string>>)
    requires forall j :: 0 <= j < |files| ==> !Filled(files[j])
    ensures KeptNames(files) == []
  {
    if |files| > 0 {
      KeptNamesOfUnset(files[1..]);
    }
  }

  /** All truthy entries are kept, in order. */
  lemma {:induction false} KeptNamesOfFilled(files: seq<Option<string>>)
    requires forall j :: 0 <= j < |files| ==> Filled(files[j])
    ensures |KeptNames(files)| == |files|
    ensures forall j :: 0 <= j < |files| ==> Some(KeptNames(files)[j]) == files[j]
  {
    if |files| > 0 {
      KeptNamesOfFilled(files[1..]);
    }
  }

  // --------------------------------------------------- search option builders

  /** `directory` with one trailing backslash removed, as the Windows builder does. */
  function StripTrailingBackslash(d: string): (r: string)
    ensures r == d || (r + "\\" == d)
    ensures |d| > 0 && d[|d| - 1] == '\\' ==> r + "\\" == d
  {
    if |d| > 0 && d[|d| - 1] == '\\' then d[..|d| - 1] else d
  }

  /**
   * `buildWindowsSearchOptions(provider, files, options)`: one argument,
   * `/R "<directory>"  <names>`, with the directory resolved by the provider
   * (default `c:\`) and stripped of one trailing backslash.
   */
  function BuildWindowsSearchOptions(resolve: string -> string, files: seq<Option<string>>,
                                     options: Option<SearchOptions>): (search: seq<string>)
    ensures |search| == 1
    ensures search[0] == "/R \"" + StripTrailingBackslash(resolve(DirectoryOr(options, WindowsDefaultRoot))) + "\"  " +
                         Join(MapFileExtensions(Some(files), ExtensionOf(options)), " ")
  {
    var directory := StripTrailingBackslash(resolve(DirectoryOr(options, WindowsDefaultRoot)));
    ["/R \"" + directory + "\"  " + Join(MapFileExtensions(Some(files), ExtensionOf(options)), " ")]
  }

  /**
   * `buildLinuxSearchOptions(provider, files, options)`: one argument. An
   * executable search is `<dir> -name <names>` with extension `exe` by
   * default, an application search is the bare names for `whereis`, and
   * every other scope is `<dir> -name  <names>` with extension `*` by default.
   */
  function BuildLinuxSearchOptions(resolve: string -> string, files: seq<Option<string>>,
                                   options: Option<SearchOptions>): (search: seq<string>)
    ensures |search| == 1
    ensures ScopeOf(options) == ApplicationScope ==> search[0] == Join(KeptNames(files), " ")
    ensures ScopeOf(options) == ExecutableScope ==>
              search[0] == resolve(DirectoryOr(options, LinuxDefaultRoot)) + " -name " +
                           Join(MapFileExtensions(Some(files), if ExtensionOf(options) != "" then ExtensionOf(options) else "exe"), " ")
    ensures ScopeOf(options) !in {ExecutableScope, ApplicationScope} ==>
              search[0] == resolve(DirectoryOr(options, LinuxDefaultRoot)) + " -name  " +
                           Join(MapFileExtensions(Some(files), if ExtensionOf(options) != "" then ExtensionOf(options) else "*"), " ")
  {
    var extension := ExtensionOf(options);
    var directory := resolve(DirectoryOr(options, LinuxDefaultRoot));
    match ScopeOf(options)
    case ExecutableScope =>
      [directory + " -name " + Join(MapFileExtensions(Some(files), if extension != "" then extension else "exe"), " ")]
    case ApplicationScope =>
      NoSuffixKeepsNames(files);
      [Join(MapFileExtensions(Some(files), ""), " ")]
    case _ =>
      [directory + " -name  " + Join(MapFileExtensions(Some(files), if extension != "" then extension else "*"), " ")]
  }

  /**
   * The `whereis` argument of an application search splits back into the
   * requested names when none of them contains a space.
   */
  lemma ApplicationSearchWords(resolve: string -> string, files: seq<Option<string>>, options: Option<SearchOptions>)
    requires ScopeOf(options) == ApplicationScope
    requires |KeptNames(files)| >= 1
    requires forall j :: 0 <= j < |KeptNames(files)| ==> ' ' !in KeptNames(files)[j]
    ensures Split(BuildLinuxSearchOptions(resolve, files, options)[0], {' '}) == KeptNames(files)
  {
    SplitJoinRoundTrip(KeptNames(files), ' ');
  }

  /**
   * The words after `/R "<directory>"  ` of a Windows search are the
   * requested names, each with the extension suffix, when none has a space.
   */
  lemma WindowsSearchWords(resolve: string -> string, files: seq<Option<string>>, options: Option<SearchOptions>)
    requires |KeptNames(files)| >= 1
    requires forall j :: 0 <= j < |KeptNames(files)| ==> ' ' !in KeptNames(files)[j] + ExtensionSuffix(ExtensionOf(options))
    ensures var d := StripTrailingBackslash(resolve(DirectoryOr(options, WindowsDefaultRoot)));
            var search := BuildWindowsSearchOptions(resolve, files, options)[0];
            var head := "/R \"" + d + "\"  ";
            |head| <= |search| && search[..|head|] == head &&
            Split(search[|head|..], {' '}) == MapFileExtensions(Some(files), ExtensionOf(options))
  {
    var d := StripTrailingBackslash(resolve(DirectoryOr(options, WindowsDefaultRoot)));
    var head := "/R \"" + d + "\"  ";
    var words := Join(MapFileExtensions(Some(files), ExtensionOf(options)), " ");
    assert BuildWindowsSearchOptions(resolve, files, options)[0] == head + words;
    assert (head + words)[|head|..] == words;
    SplitJoinRoundTrip(MapFileExtensions(Some(files), ExtensionOf(options)), ' ');
  }

  /** With an empty extension the names are passed through untouched. */
  lemma NoSuffixKeepsNames(files: seq<Option<string>>)
    ensures MapFileExtensions(Some(files), "") == KeptNames(files)
  {
    assert IndexOf("", ".") == None;
    assert ExtensionSuffix("") == "";
    var m, k := MapFileExtensions(Some(files), ""), KeptNames(files);
    assert forall j :: 0 <= j < |m| ==> m[j] == k[j] + "" == k[j];
  }

  // ------------------------------------------------------------ isExecutable

  /** What `statSync` reports that the executable test reads. */
  datatype FileStat = FileStat(isFile: bool, mode: nat)

  /** `statSync(path)`: `None` models the exception thrown for a missing file. */
  type Stat = string -> Option<FileStat>

  /** `mode & (S_IXUSR | S_IXGRP | S_IXOTH) !== 0`: one of the bits 0o100, 0o010, 0o001 is set. */
  predicate HasExecBit(mode: nat) {
    (mode / 64) % 2 == 1 || (mode / 8) % 2 == 1 || mode % 2 == 1
  }

  /** A regular file with an execute permission bit, according to `stat`. */
  predicate StatExecutable(stat: Stat, path: string) {
    match stat(path)
    case None => false
    case Some(st) => st.isFile && HasExecBit(st.mode)
  }

  /** The alternatives of `EXEC_REGEX`. */
  const ExecExtensions: seq<string> := ["exe", "bat", "cmd", "com", "ps1", "sh", "bin", "run", "appimage"]

  /** ASCII lower case; the `/i` flag folds no other character onto these letters. */
  function AsciiLower(c: char): char {
    if 'A' <= c <= 'Z' then (c as int + 32) as char else c
  }

  /** `s` ends with `suffix`, ignoring ASCII case. */
  predicate EndsWithIgnoreCase(s: string, suffix: string) {
    |suffix| <= |s| && forall k :: 0 <= k < |suffix| ==> AsciiLower(s[|s| - |suffix| + k]) == AsciiLower(suffix[k])
  }

  /** `EXEC_REGEX` matches: the path ends with `.` and one of the executable extensions, in any case. */
  predicate HasExecExtension(path: string) {
    exists j :: 0 <= j < |ExecExtensions| && EndsWithIgnoreCase(path, "." + ExecExtensions[j])
  }

  /**
   * `isExecutable(path)` as written: `statSync` is consulted only when the
   * extension test FAILS, and a matching extension falls through to `false`.
   */
  predicate IsExecutableAsWritten(stat: Stat, path: string) {
    !HasExecExtension(path) && StatExecutable(stat, path)
  }

  /** Whatever the file system says, the source rejects every path named like an executable. */
  lemma ExecutableNameRejectedAsWritten(stat: Stat, path: string)
    requires HasExecExtension(path)
    ensures !IsExecutableAsWritten(stat, path)
  {
  }

  /** `C:\app\run.EXE` is named like an executable, yet the source reports it as not executable. */
  lemma ExeFileRejectedAsWritten(stat: Stat)
    ensures HasExecExtension("run.EXE")
    ensures !IsExecutableAsWritten(stat, "run.EXE")
  {
    var p := "run.EXE";
    assert EndsWithIgnoreCase(p, "." + ExecExtensions[0]);
  }

  /**
   * `isExecutable(path)` as its comment describes it: a path with an
   * executable extension is executable; any other path is executable when
   * it is a regular file with an execute bit.
   */
  predicate IsExecutable(stat: Stat, path: string) {
    HasExecExtension(path) || StatExecutable(stat, path)
  }

  /** The corrected test accepts exactly the extension matches plus the stat-executable files. */
  lemma IsExecutableCases(stat: Stat, path: string)
    ensures HasExecExtension(path) ==> IsExecutable(stat, path)
    ensures !HasExecExtension(path) ==> (IsExecutable(stat, path) <==> IsExecutableAsWritten(stat, path))
    ensures IsExecutableAsWritten(stat, path) ==> IsExecutable(stat, path)
  {
  }

  /** Upper and lower case extensions are treated alike. */
  lemma ExecExtensionIgnoresCase(stem: string, j: nat)
    requires j < |ExecExtensions|
    ensures HasExecExtension(stem + "." + ExecExtensions[j])
  {
    var p := stem + "." + ExecExtensions[j];
    var suf := "." + ExecExtensions[j];
    assert p[|p| - |suf|..] == suf;
    forall k | 0 <= k < |suf|
      ensures AsciiLower(p[|p| - |suf| + k]) == AsciiLower(suf[k])
    {
      assert p[|p| - |suf| + k] == suf[k];
    }
  }

  // ------------------------------------------------------- response building

  /** `isValidPath(line, scope)`: no `:` in the line, and executable for an application search. */
  predicate IsValidPath(stat: Stat, line: string, scope: Option<Scope>) {
    !Contains(line, ":") && (scope == Some(ApplicationScope) ==> IsExecutable(stat, line))
  }

  /** `isValidPath(line, scope)` as written, with `isExecutable` as written. */
  predicate IsValidPathAsWritten(stat: Stat, line: string, scope: Option<Scope>) {
    !Contains(line, ":") && (scope == Some(ApplicationScope) ==> IsExecutableAsWritten(stat, line))
  }

  /**
   * The two line tests differ only on application searches and only for
   * lines named like executables, which the source drops and the corrected
   * test keeps.
   */
  lemma IsValidPathAgrees(stat: Stat, line: string, scope: Option<Scope>)
    ensures scope != Some(ApplicationScope) || !HasExecExtension(line) ==>
              (IsValidPathAsWritten(stat, line, scope) <==> IsValidPath(stat, line, scope))
    ensures scope == Some(ApplicationScope) && HasExecExtension(line) ==>
              !IsValidPathAsWritten(stat, line, scope) && (IsValidPath(stat, line, scope) <==> !Contains(line, ":"))
  {
  }

  /** A line with a colon (a `whereis` label such as `chromium:`) is never a valid path. */
  lemma ColonLineInvalid(stat: Stat, line: string, scope: Option<Scope>)
    requires ':' in line
    ensures !IsValidPath(stat, line, scope)
  {
    ContainsChar(line, ':');
  }

  /** `key` is a search term worth filing `line` under: truthy and contained in the line. */
  predicate KeyMatches(line: string, key: Option<string>) {
    Filled(key) && Contains(line, key.value)
  }

  /** `getOccociatedFile(line, keys)`: the first truthy key that the line contains. */
  function AssociatedFile(line: string, keys: seq<Option<string>>): (r: Option<string>)
    ensures r.None? <==> forall j :: 0 <= j < |keys| ==> !KeyMatches(line, keys[j])
    ensures r.Some? ==> exists j :: 0 <= j < |keys| && keys[j] == r && KeyMatches(line, keys[j]) &&
                          forall i :: 0 <= i < j ==> !KeyMatches(line, keys[i])
  {
    if |keys| == 0 then None
    else if KeyMatches(line, keys[0]) then keys[0]
    else
      var r := AssociatedFile(line, keys[1..]);
      assert forall j :: 1 <= j < |keys| ==> keys[j] == keys[1..][j - 1];
      if r.Some? then
        var j :| 0 <= j < |keys[1..]| && keys[1..][j] == r && KeyMatches(line, keys[1..][j]) &&
                 forall i :: 0 <= i < j ==> !KeyMatches(line, keys[1..][i]);
        assert keys[j + 1] == r;
        r
      else r
  }

  /** The result key a valid line is filed under: its term, or `stdout` when no term matches. */
  function FileKey(line: string, keys: seq<Option<string>>): (k: string)
    ensures k != ""
  {
    match AssociatedFile(line, keys)
    case Some(k) => k
    case None => "stdout"
  }

  /**
   * `value.split("\r\n").join("")`: every `\r\n` pair, found left to right,
   * removed.
   */
  function RemoveCrLf(s: string): (r: string)
    ensures |r| <= |s|
    decreases |s|
  {
    if |s| >= 2 && s[0] == '\r' && s[1] == '\n' then RemoveCrLf(s[2..])
    else if |s| == 0 then ""
    else [s[0]] + RemoveCrLf(s[1..])
  }

  /** Characters other than `\r` and `\n` survive the removal, in order. */
  lemma {:induction false} RemoveCrLfKeepsText(s: string)
    requires '\r' !in s
    ensures RemoveCrLf(s) == s
    decreases |s|
  {
    if |s| > 0 {
      assert s[0] in s;
      RemoveCrLfKeepsText(s[1..]);
      assert s == [s[0]] + s[1..];
    }
  }

  /** `cleanPath(value)`: `\r\n` pairs dropped, backslashes turned into `/`. */
  function CleanPath(value: string): (r: string)
    ensures '\\' !in r
    ensures |r| <= |value|
  {
    var v := RemoveCrLf(value);
    ReplaceCharsLength(v, {'\\'}, "/");
    ReplaceCharsRemovesSeparators(v, {'\\'}, "/");
    ReplaceChars(v, {'\\'}, "/")
  }

  /** A Windows path without carriage returns is cleaned character for character. */
  lemma CleanPathAt(value: string, i: int)
    requires '\r' !in value
    requires 0 <= i < |value|
    ensures |CleanPath(value)| == |value|
    ensures CleanPath(value)[i] == if value[i] == '\\' then '/' else value[i]
  {
    RemoveCrLfKeepsText(value);
    ReplaceCharsAt(value, {'\\'}, "/", i);
  }

  /** A clean path is its own cleaning. */
  lemma CleanPathFixes(value: string)
    requires '\r' !in value && '\\' !in value
    ensures CleanPath(value) == value
  {
    RemoveCrLfKeepsText(value);
    ReplaceCharsAbsent(value, {'\\'}, "/");
  }

  /**
   * Reference definition: the cleaned valid lines filed under `key`, in
   * output order.
   */
  function FiledUnder(stat: Stat, output: seq<string>, keys: seq<Option<string>>, scope: Option<Scope>,
                      key: string): seq<string>
  {
    if |output| == 0 then []
    else FiledLine(stat, output[0], keys, scope, key) + FiledUnder(stat, output[1..], keys, scope, key)
  }

  /** The cleaned line when it is valid and filed under `key`, nothing otherwise. */
  function FiledLine(stat: Stat, line: string, keys: seq<Option<string>>, scope: Option<Scope>,
                     key: string): seq<string>
  {
    if IsValidPath(stat, line, scope) && FileKey(line, keys) == key then [CleanPath(line)] else []
  }

  /**
   * `buildSearchResponse(output, {keys, options})`: the valid lines grouped
   * by the search term they contain (`stdout` when none), each cleaned,
   * in output order.
   */
  function BuildSearchResponse(stat: Stat, output: seq<string>, keys: seq<Option<string>>,
                               scope: Option<Scope>): (results: map<string, seq<string>>)
    decreases |output|
  {
    if |output| == 0 then map[]
    else
      var line := output[|output| - 1];
      var before := BuildSearchResponse(stat, output[..|output| - 1], keys, scope);
      if IsValidPath(stat, line, scope) then
        var k := FileKey(line, keys);
        before[k := (if k in before then before[k] else []) + [CleanPath(line)]]
      else before
  }

  /** Appending a line extends the reference listing at the end. */
  lemma {:induction false} FiledUnderSnoc(stat: Stat, output: seq<string>, line: string,
                                          keys: seq<Option<string>>, scope: Option<Scope>, key: string)
    ensures FiledUnder(stat, output + [line], keys, scope, key)
         == FiledUnder(stat, output, keys, scope, key) + FiledLine(stat, line, keys, scope, key)
    decreases |output|
  {
    if |output| == 0 {
      assert output + [line] == [line];
      assert [line][1..] == [];
    } else {
      var head := FiledLine(stat, output[0], keys, scope, key);
      var last := FiledLine(stat, line, keys, scope, key);
      assert (output + [line])[0] == output[0];
      assert (output + [line])[1..] == output[1..] + [line];
      calc {
        FiledUnder(stat, output + [line], keys, scope, key);
        head + FiledUnder(stat, output[1..] + [line], keys, scope, key);
        { FiledUnderSnoc(stat, output[1..], line, keys, scope, key); }
        head + (FiledUnder(stat, output[1..], keys, scope, key) + last);
        (head + FiledUnder(stat, output[1..], keys, scope, key)) + last;
        FiledUnder(stat, output, keys, scope, key) + last;
      }
    }
  }

  /**
   * The response holds a key exactly when some valid line is filed under it,
   * and then lists exactly those lines, cleaned, in output order.
   */
  lemma {:induction false} BuildSearchResponseGroups(stat: Stat, output: seq<string>, keys: seq<Option<string>>,
                                                     scope: Option<Scope>, key: string)
    ensures key in BuildSearchResponse(stat, output, keys, scope) <==> FiledUnder(stat, output, keys, scope, key) != []
    ensures key in BuildSearchResponse(stat, output, keys, scope) ==>
              BuildSearchResponse(stat, output, keys, scope)[key] == FiledUnder(stat, output, keys, scope, key)
    decreases |output|
  {
    if |output| > 0 {
      var init, line := output[..|output| - 1], output[|output| - 1];
      assert output == init + [line];
      BuildSearchResponseGroups(stat, init, keys, scope, key);
      FiledUnderSnoc(stat, init, line, keys, scope, key);
    }
  }

  /** Every listed path is clean: no backslash in any result. */
  lemma {:induction false} BuildSearchResponseClean(stat: Stat, output: seq<string>, keys: seq<Option<string>>,
                                                    scope: Option<Scope>, key: string)
    requires key in BuildSearchResponse(stat, output, keys, scope)
    ensures forall j :: 0 <= j < |BuildSearchResponse(stat, output, keys, scope)[key]| ==>
              '\\' !in BuildSearchResponse(stat, output, keys, scope)[key][j]
    decreases |output|
  {
    var init, line := output[..|output| - 1], output[|output| - 1];
    var before := BuildSearchResponse(stat, init, keys, scope);
    if key in before {
      BuildSearchResponseClean(stat, init, keys, scope, key);
    }
  }

  /** A character other than `/` that a line lacks is lacking from its cleaned form too. */
  lemma CleanPathKeepsAbsence(line: string, c: char)
    requires c != '/' && c !in line
    ensures c !in CleanPath(line)
  {
    var v := RemoveCrLf(line);
    RemoveCrLfKeepsAbsence(line, c);
    ReplaceCharsLength(v, {'\\'}, "/");
    forall i | 0 <= i < |v|
      ensures CleanPath(line)[i] != c
    {
      ReplaceCharsAt(v, {'\\'}, "/", i);
    }
  }

  /** Dropping `\r\n` pairs introduces no character. */
  lemma {:induction false} RemoveCrLfKeepsAbsence(s: string, c: char)
    requires c !in s
    ensures c !in RemoveCrLf(s)
    decreases |s|
  {
    if |s| >= 2 && s[0] == '\r' && s[1] == '\n' {
      assert forall x :: x in s[2..] ==> x in s;
      RemoveCrLfKeepsAbsence(s[2..], c);
    } else if |s| > 0 {
      assert forall x :: x in s[1..] ==> x in s;
      RemoveCrLfKeepsAbsence(s[1..], c);
    }
  }

  /** Every path filed under a key is the cleaned form of a valid output line. */
  lemma {:induction false} FiledUnderFromLines(stat: Stat, output: seq<string>, keys: seq<Option<string>>,
                                               scope: Option<Scope>, key: string)
    ensures forall p :: p in FiledUnder(stat, output, keys, scope, key) ==>
              exists i :: 0 <= i < |output| && IsValidPath(stat, output[i], scope) && p == CleanPath(output[i])
    decreases |output|
  {
    if |output| > 0 {
      FiledUnderFromLines(stat, output[1..], keys, scope, key);
      assert forall i :: 1 <= i < |output| ==> output[i] == output[1..][i - 1];
    }
  }
}
