/**
 * The Windows operating-system provider of
 * `src/modules/system/windows/WindowsProvider.ts`: the `win32` display name,
 * slash-to-backslash path rewriting, the quoted command line of an
 * executable, the `TASKKILL` request, the spawn options, and the fixed
 * application directories. The host path separator is `\`.
 */
module WindowsProvider {
  import opened Js
  import opened Strings
  import opened Results
  import CoreOS
  import PathTools

  /** `path.sep` on Windows. */
  const Sep: char := '\\'

  /** `WINDOWS_TASK_TERMINATE`. */
  const TaskKill: string := "TASKKILL"

  /** `WindowsProvider.PROGRAM_FILESX86`. */
  const ProgramFilesX86: string := "C:\\PROGRAM FILES (x86)"

  /** `WindowsProvider.PROGRAM_FILES`. */
  const ProgramFiles: string := "C:\\PROGRAM FILES"

  /** The value `kill` accepts: a numeric process id, a process name, or a child process object. */
  datatype KillTarget = ProcessId(id: int) | ProcessName(name: string) | ChildProcess(pid: Option<int>)

  /** `resolveProvider(name)`: Node's `win32` is displayed as `Windows`. */
  function ResolveProvider(providerName: string): (r: string)
    ensures providerName == "win32" ==> r == "Windows"
    ensures providerName != "win32" ==> r == providerName
  {
    if providerName == "win32" then "Windows" else providerName
  }

  /** The constructor: `platform()` through `resolveProvider`, platform tag `windows`. */
  function New(platformName: string): (p: CoreOS.ProviderInfo)
    ensures p.providerName == ResolveProvider(platformName) && p.platform == "windows"
  {
    CoreOS.NewProvider(ResolveProvider, platformName, "windows")
  }

  /** On Windows, where `platform()` is `win32`, the provider is named `Windows`. */
  lemma NewOnWin32()
    ensures New("win32").providerName == "Windows"
  {
  }

  /** `getProviderName()`: the stored name. */
  function GetProviderName(p: CoreOS.ProviderInfo): (r: string)
    ensures r == p.providerName
  {
    p.providerName
  }

  /** A provider built on any platform reports `Windows` for `win32` and the platform's own name otherwise. */
  lemma GetProviderNameOfNew(platformName: string)
    ensures GetProviderName(New(platformName)) == if platformName == "win32" then "Windows" else platformName
  {
  }

  /**
   * `resolvePath(path, resolveSpaces)`: every `/` becomes `\`, then the
   * shared `resolvePath` of the path helpers applies, quoting spaced
   * segments when `resolveSpaces` holds (the default).
   */
  function ResolvePath(host: PathTools.PathHost, path: string, resolveSpaces: bool): (r: string)
    ensures var local := ReplaceChars(path, {'/'}, [Sep]);
            r == PathTools.ResolvePath(host, local, resolveSpaces)
  {
    JoinSplitIsReplace(path, {'/'}, [Sep]);
    PathTools.ResolvePath(host, Join(Split(path, {'/'}), [Sep]), resolveSpaces)
  }

  /** An absolute path, when not quoted, comes back with backslashes in place of slashes only. */
  lemma ResolvePathAbsolute(host: PathTools.PathHost, path: string)
    requires '/' in path || '\\' in path
    requires host.isAbsolute(ReplaceChars(path, {'/'}, [Sep]))
    ensures '/' !in ResolvePath(host, path, false)
    ensures |ResolvePath(host, path, false)| == |path|
  {
    var local := ReplaceChars(path, {'/'}, [Sep]);
    ReplaceCharsLength(path, {'/'}, [Sep]);
    ReplaceCharsRemovesSeparators(path, {'/'}, [Sep]);
    assert '\\' in local by {
      var i :| 0 <= i < |path| && (path[i] == '/' || path[i] == '\\');
      ReplaceCharsAt(path, {'/'}, [Sep], i);
      assert local[i] == '\\';
    }
  }

  /** `options?.entryPoint ? options.entryPoint + " " : ""`. */
  function EntryPrefix(options: Option<CoreOS.LaunchOptions>): (prefix: string)
    ensures options.None? || !Truthy(options.value.entryPoint) ==> prefix == ""
    ensures options.Some? && Truthy(options.value.entryPoint) ==> prefix == JsString(options.value.entryPoint) + " "
  {
    if options.Some? && Truthy(options.value.entryPoint) then JsString(options.value.entryPoint) + " " else ""
  }

  /**
   * `(options?.flags || []).join(" ")`. A truthy non-array `flags` has no
   * `join` and the call throws a `TypeError`.
   */
  function JoinedFlags(options: Option<CoreOS.LaunchOptions>): (r: Result<string, string>)
    ensures r.Err? <==> options.Some? && options.value.flags.FlagScalar? && Truthy(options.value.flags.value)
    ensures r.Ok? && options.Some? && options.value.flags.FlagArray? ==>
              r.value == Join(JoinTexts(options.value.flags.items), " ")
    ensures r.Ok? && !(options.Some? && options.value.flags.FlagArray?) ==> r.value == ""
  {
    if options.None? then Ok("")
    else match options.value.flags
      case FlagArray(items) => Ok(Join(JoinTexts(items), " "))
      case FlagScalar(v) => if Truthy(v) then Err("TypeError") else Ok("")
  }

  /** Each array element as `join` renders it. */
  function JoinTexts(items: seq<JsValue>): (texts: seq<string>)
    ensures |texts| == |items|
    ensures forall j :: 0 <= j < |items| ==> texts[j] == JoinText(items[j])
  {
    seq(|items|, j requires 0 <= j < |items| => JoinText(items[j]))
  }

  /**
   * `buildExecutablePath(path, options)`: the optional entry point and a
   * space, the path resolved without space quoting inside double quotes,
   * one space, then the flags joined by single spaces. The space after the
   * closing quote is present even when there are no flags.
   */
  function BuildExecutablePath(host: PathTools.PathHost, path: string, options: Option<CoreOS.LaunchOptions>): (r: Result<string, string>)
    ensures r.Ok? <==> JoinedFlags(options).Ok?
    ensures r.Ok? ==> r.value == EntryPrefix(options) + "\"" + ResolvePath(host, path, false) + "\" " + JoinedFlags(options).value
  {
    match JoinedFlags(options)
    case Ok(flags) => Ok(EntryPrefix(options) + "\"" + ResolvePath(host, path, false) + "\" " + flags)
    case Err(e) => Err(e)
  }

  /** Without options the command line is the quoted path and a trailing space. */
  lemma BuildExecutablePathPlain(host: PathTools.PathHost, path: string)
    ensures BuildExecutablePath(host, path, None) == Ok("\"" + ResolvePath(host, path, false) + "\" ")
  {
    assert JoinedFlags(None) == Ok("");
    assert EntryPrefix(None) == "";
    assert "" + "\"" + ResolvePath(host, path, false) + "\" " + "" == "\"" + ResolvePath(host, path, false) + "\" ";
  }

  /** The process id as `String(...)` renders it in the `TASKKILL` arguments. */
  function PidText(target: KillTarget): string {
    match target
    case ProcessId(id) => IntToString(id)
    case ProcessName(name) => name
    case ChildProcess(pid) => if pid.Some? then IntToString(pid.value) else "[object Object]"
  }

  /**
   * `kill(processOrId)`: `TASKKILL /pid <id> /f /t`, the id taken from a
   * child's numeric `pid` when it has one, else the value itself.
   */
  function Kill(target: KillTarget): (c: CoreOS.Command)
    ensures c.program == TaskKill
    ensures |c.args| == 4 && c.args[0] == "/pid" && c.args[2] == "/f" && c.args[3] == "/t"
    ensures target.ChildProcess? && target.pid.Some? ==> c.args[1] == IntToString(target.pid.value)
    ensures target.ProcessId? ==> c.args[1] == IntToString(target.id)
    ensures target.ProcessName? ==> c.args[1] == target.name
  {
    CoreOS.Command(TaskKill, ["/pid", PidText(target), "/f", "/t"])
  }

  /** A child process and its numeric id are killed by the same command. */
  lemma KillChildSameAsId(pid: int)
    ensures Kill(ChildProcess(Some(pid))) == Kill(ProcessId(pid))
  {
  }

  /** `options?.detached || false`. */
  function DetachedOf(options: Option<CoreOS.LaunchOptions>): (d: JsValue)
    ensures Truthy(d) <==> options.Some? && Truthy(options.value.detached)
  {
    if options.Some? && Truthy(options.value.detached) then options.value.detached else Bool(false)
  }

  /**
   * `buildExecutable(path, options)`: the command line, the flags filtered by
   * the base validator, the original path, and spawn options that always
   * use a shell and detach only when asked.
   */
  function BuildExecutable(host: PathTools.PathHost, path: string, options: Option<CoreOS.LaunchOptions>): (r: Result<CoreOS.Executable, string>)
    ensures r.Ok? <==> BuildExecutablePath(host, path, options).Ok?
    ensures r.Ok? ==> r.value.filePath == path
    ensures r.Ok? ==> r.value.executablePath == BuildExecutablePath(host, path, options).value
    ensures r.Ok? ==> r.value.arguments == CoreOS.BuildExecutableFlags(s => CoreOS.ValidateFlagString(s), CoreOS.FlagsOf(options))
    ensures r.Ok? ==> r.value.options.SpawnOptions? && r.value.options.shell
    ensures r.Ok? ==> (Truthy(r.value.options.detached) <==> options.Some? && Truthy(options.value.detached))
  {
    match BuildExecutablePath(host, path, options)
    case Ok(executablePath) =>
      Ok(CoreOS.Executable(executablePath,
                           CoreOS.BuildExecutableFlags(s => CoreOS.ValidateFlagString(s), CoreOS.FlagsOf(options)),
                           path, CoreOS.SpawnOptions(DetachedOf(options), true)))
    case Err(e) => Err(e)
  }

  /** `homePath()`: the `USERPROFILE` environment entry when truthy, else the home directory. */
  function HomePath(userProfile: Option<string>, homedir: string): (r: string)
    ensures Filled(userProfile) ==> r == userProfile.value
    ensures !Filled(userProfile) ==> r == homedir
  {
    FilledOr(userProfile, homedir)
  }

  /**
   * `applicationPaths()`: the user's local programs folder under the home
   * path, then the two Program Files folders.
   */
  function ApplicationPaths(home: string): (paths: seq<string>)
    ensures |paths| == 3
    ensures paths[1] == ProgramFilesX86 && paths[2] == ProgramFiles
    ensures |paths[0]| > |home| && paths[0][..|home|] == home
  {
    [home + [Sep] + "AppData" + [Sep] + "Local" + [Sep] + "Programs", ProgramFilesX86, ProgramFiles]
  }

  /** `install(module)`: always resolves `false`. */
  function Install(moduleName: string): (installed: bool)
    ensures !installed
  {
    false
  }

  /** `update()`: always resolves `false`. */
  function Update(): (updated: bool)
    ensures !updated
  {
    false
  }
}
