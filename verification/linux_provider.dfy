/**
 * The Linux operating-system provider of
 * `src/modules/system/linux/LinuxProvider.ts`: path normalisation, the
 * command line of an executable, the `kill` / `pkill` request, the
 * distribution name read from the text of `/etc/os-release`, and the fixed
 * application directories. The host path separator is `/`.
 */
module LinuxProvider {
  import opened Js
  import opened Strings
  import CoreOS

  /** `path.sep` on Linux. */
  const Sep: char := '/'

  /** `LINUX_EXEC_KILL`. */
  const KillCommand: string := "kill"

  /** `LINUX_EXEC_PKILL`. */
  const PkillCommand: string := "pkill"

  /** The value `kill` accepts: a numeric process id, a process name, or a child process object. */
  datatype KillTarget = ProcessId(id: int) | ProcessName(name: string) | ChildProcess(pid: Option<int>)

  /** The constructor: the base name resolver keeps `platform()` and the platform tag is `linux`. */
  function New(platformName: string): (p: CoreOS.ProviderInfo)
    ensures p.providerName == platformName && p.platform == "linux"
  {
    CoreOS.NewProvider(CoreOS.ResolveProvider, platformName, "linux")
  }

  /**
   * `resolvePath(path)`: every backslash becomes the separator, then
   * surrounding whitespace is trimmed.
   */
  function ResolvePath(path: string): (r: string)
    ensures '\\' !in r
    ensures |r| == 0 || (!IsJsWhitespace(r[0]) && !IsJsWhitespace(r[|r| - 1]))
  {
    var replaced := Join(Split(path, {'\\'}), [Sep]);
    JoinSplitIsReplace(path, {'\\'}, [Sep]);
    ReplaceCharsRemovesSeparators(path, {'\\'}, [Sep]);
    var r := Trim(replaced);
    SliceKeepsAbsence(replaced, '\\');
    r
  }

  /** A character absent from a string is absent from every slice of it. */
  lemma SliceKeepsAbsence(s: string, c: char)
    requires forall j :: 0 <= j < |s| ==> s[j] != c
    ensures forall i, k :: 0 <= i <= k <= |s| ==> c !in s[i..k]
  {
    forall i, k | 0 <= i <= k <= |s|
      ensures c !in s[i..k]
    {
      forall j | 0 <= j < k - i
        ensures s[i..k][j] != c
      {
        assert s[i..k][j] == s[i + j];
      }
    }
  }

  /** Resolving a resolved path changes nothing. */
  lemma ResolvePathIdempotent(path: string)
    ensures ResolvePath(ResolvePath(path)) == ResolvePath(path)
  {
    var r := ResolvePath(path);
    JoinSplitIsReplace(r, {'\\'}, [Sep]);
    ReplaceCharsAbsent(r, {'\\'}, [Sep]);
    TrimIdempotent(Join(Split(path, {'\\'}), [Sep]));
  }

  /** A Windows-style relative path is rewritten separator for separator. */
  lemma ResolvePathRewritesBackslashes(path: string, i: int)
    requires |path| > 0 && !IsJsWhitespace(path[0]) && !IsJsWhitespace(path[|path| - 1])
    requires 0 <= i < |path|
    ensures |ResolvePath(path)| == |path|
    ensures ResolvePath(path)[i] == if path[i] == '\\' then Sep else path[i]
  {
    var replaced := Join(Split(path, {'\\'}), [Sep]);
    JoinSplitIsReplace(path, {'\\'}, [Sep]);
    ReplaceCharsLength(path, {'\\'}, [Sep]);
    ReplaceCharsAt(path, {'\\'}, [Sep], 0);
    ReplaceCharsAt(path, {'\\'}, [Sep], |path| - 1);
    ReplaceCharsAt(path, {'\\'}, [Sep], i);
    assert !IsJsWhitespace(Sep);
    assert TrimStart(replaced) == replaced;
    assert TrimEnd(replaced) == replaced;
  }

  /** `options?.entryPoint ? options.entryPoint + " " : ""`. */
  function EntryPrefix(options: Option<CoreOS.LaunchOptions>): (prefix: string)
    ensures options.None? || !Truthy(options.value.entryPoint) ==> prefix == ""
    ensures options.Some? && Truthy(options.value.entryPoint) ==> prefix == JsString(options.value.entryPoint) + " "
  {
    if options.Some? && Truthy(options.value.entryPoint) then JsString(options.value.entryPoint) + " " else ""
  }

  /**
   * `buildExecutablePath(path, options)`: the resolved path, preceded by the
   * entry point and a space when an entry point is set.
   */
  function BuildExecutablePath(path: string, options: Option<CoreOS.LaunchOptions>): (r: string)
    ensures options.None? || !Truthy(options.value.entryPoint) ==> r == ResolvePath(path)
    ensures options.Some? && Truthy(options.value.entryPoint) ==>
              r == JsString(options.value.entryPoint) + " " + ResolvePath(path)
  {
    EntryPrefix(options) + ResolvePath(path)
  }

  /**
   * `kill(processOrId)`: `kill -9 <id>` for a number, `pkill -9 <name>`
   * for anything else, always as a single argument.
   */
  function Kill(target: KillTarget): (c: CoreOS.Command)
    ensures |c.args| == 1
    ensures c.program == (if target.ProcessId? then KillCommand else PkillCommand)
    ensures target.ProcessId? ==> c.args[0] == "-9 " + IntToString(target.id)
    ensures target.ProcessName? ==> c.args[0] == "-9 " + target.name
    ensures target.ChildProcess? ==> c.args[0] == "-9 [object Object]"
  {
    match target
    case ProcessId(id) => CoreOS.Command(KillCommand, ["-9 " + IntToString(id)])
    case ProcessName(name) => CoreOS.Command(PkillCommand, ["-9 " + name])
    case ChildProcess(_) => CoreOS.Command(PkillCommand, ["-9 [object Object]"])
  }

  /**
   * The value of a line of `/etc/os-release` when its key is exactly `NAME`:
   * the text between the first and the second `=`, when that is non-empty.
   */
  function NameValue(line: string): (v: Option<string>)
    ensures v.Some? ==> v.value != "" && '=' !in v.value
  {
    var keyPair := Split(line, {'='});
    SplitPiecesHaveNoSeparator(line, {'='});
    if keyPair[0] == "NAME" && |keyPair| > 1 && keyPair[1] != "" then
      assert forall j :: 0 <= j < |keyPair[1]| ==> keyPair[1][j] != '=';
      Some(keyPair[1])
    else None
  }

  /** No line of `lines` is a `NAME` line with a value. */
  predicate NoNameLine(lines: seq<string>) {
    forall i :: 0 <= i < |lines| ==> NameValue(lines[i]).None?
  }

  /** The value of the first `NAME` line among `lines`, or `""`. */
  function FirstName(lines: seq<string>): (r: string)
    ensures r == "" <==> NoNameLine(lines)
    ensures r != "" ==> exists i :: 0 <= i < |lines| && NameValue(lines[i]) == Some(r) &&
                          forall k :: 0 <= k < i ==> NameValue(lines[k]).None?
  {
    if |lines| == 0 then ""
    else match NameValue(lines[0])
      case Some(v) => v
      case None =>
        var r := FirstName(lines[1..]);
        assert forall i :: 1 <= i < |lines| ==> lines[i] == lines[1..][i - 1];
        if r != "" then
          var i :| 0 <= i < |lines[1..]| && NameValue(lines[1..][i]) == Some(r) &&
                   forall k :: 0 <= k < i ==> NameValue(lines[1..][k]).None?;
          assert NameValue(lines[i + 1]) == Some(r);
          r
        else r
  }

  /**
   * `getDistribution()` over the text of `/etc/os-release`: the value of the
   * first line, split on `\n`, whose key is `NAME` and whose value is
   * non-empty; `""` when there is none.
   */
  function GetDistribution(data: string): (r: string)
    ensures r == "" <==> NoNameLine(Split(data, {'\n'}))
    ensures r != "" ==> '=' !in r
  {
    var lines := Split(data, {'\n'});
    FirstName(lines)
  }

  /** A release file that starts with a `NAME` line yields that line's value. */
  lemma GetDistributionFirstLine(value: string, rest: string)
    requires value != "" && '=' !in value && '\n' !in value
    ensures GetDistribution("NAME=" + value + "\n" + rest) == value
  {
    var line := "NAME=" + value;
    assert "NAME=" + value + "\n" + rest == line + ['\n'] + rest;
    assert '\n' !in line by {
      assert forall j :: 0 <= j < |line| ==> line[j] == if j < 5 then "NAME="[j] else value[j - 5];
    }
    SplitAtSeparator(line, '\n', rest);
    assert "NAME" + ['='] + value == line;
    assert '=' !in "NAME";
    SplitAtSeparator("NAME", '=', value);
    SplitWithoutSeparator(value, {'='});
  }

  /**
   * `getProviderName()`: the provider name followed by the distribution in
   * parentheses, with every double quote removed from the distribution.
   */
  function GetProviderName(providerName: string, releaseText: string): (r: string)
    ensures exists d :: '"' !in d && r == providerName + " (" + d + ")"
  {
    var d := GetDistribution(releaseText);
    JoinSplitIsReplace(d, {'"'}, "");
    ReplaceCharsIsRemove(d, '"');
    providerName + " (" + Join(Split(d, {'"'}), "") + ")"
  }

  /** The quotes of `NAME="Ubuntu"` are dropped from the displayed name. */
  lemma ProviderNameDropsQuotes(providerName: string, releaseText: string)
    ensures GetProviderName(providerName, releaseText)
         == providerName + " (" + RemoveChar(GetDistribution(releaseText), '"') + ")"
  {
    var d := GetDistribution(releaseText);
    JoinSplitIsReplace(d, {'"'}, "");
    ReplaceCharsIsRemove(d, '"');
  }

  /** Replacing a character by nothing is removing it. */
  lemma {:induction false} ReplaceCharsIsRemove(s: string, c: char)
    ensures ReplaceChars(s, {c}, "") == RemoveChar(s, c)
    decreases |s|
  {
    if |s| > 0 {
      ReplaceCharsIsRemove(s[1..], c);
    }
  }

  /** `homePath()`: the environment entry when truthy, else the home directory. */
  function HomePath(envValue: Option<string>, homedir: string): (r: string)
    ensures Filled(envValue) ==> r == envValue.value
    ensures !Filled(envValue) ==> r == homedir
  {
    FilledOr(envValue, homedir)
  }

  /** `applicationPaths()`: six fixed absolute directories, most specific first. */
  function ApplicationPaths(): (paths: seq<string>)
    ensures |paths| == 6
    ensures forall j :: 0 <= j < |paths| ==> |paths[j]| > 1 && paths[j][0] == Sep && '\\' !in paths[j]
  {
    [[Sep] + "usr" + [Sep] + "share" + [Sep] + "applications",
     [Sep] + "usr" + [Sep] + "share",
     [Sep] + "usr" + [Sep] + "bin",
     [Sep] + "usr" + [Sep] + "local",
     [Sep] + "opt",
     [Sep] + "bin"]
  }

  /** `install(module)`: always resolves `false`. */
  function Install(moduleName: string): (installed: bool)
    ensures !installed
  {
    false
  }

  /** `update()`: always resolves `false`. */
  function Update(): (updated: bool)
    ensures !updated
  {
    false
  }
}
