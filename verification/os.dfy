/**
 * The platform-independent part of the operating-system providers,
 * `CoreOSProvider` in `src/modules/system/interfaces/os.ts`: the provider
 * name, the base path and executable builders, and the flag filter. A
 * command that a provider hands to `execute` is modelled as the `Command`
 * it would run; spawning it is not part of this model.
 */
module CoreOS {
  import opened Js
  import opened Strings

  /** A command request: the program and its argument list, as passed to `execute`. */
  datatype Command = Command(program: string, args: seq<string>)

  /**
   * The `flags` field as the providers see it at run time: an array of
   * arbitrary values, or a single non-array value (`undefined` when unset).
   */
  datatype FlagsArg = FlagArray(items: seq<JsValue>) | FlagScalar(value: JsValue)

  /** The `ApplicationLaunchOptions` fields the providers read. */
  datatype LaunchOptions = LaunchOptions(entryPoint: JsValue, flags: FlagsArg, detached: JsValue)

  /** `options?.flags`: a missing options object reads as `undefined`. */
  function FlagsOf(options: Option<LaunchOptions>): FlagsArg {
    if options.Some? then options.value.flags else FlagScalar(Undefined)
  }

  /** The spawn options of an executable: `{}` in the base class, `{detached, shell}` on Windows. */
  datatype SpawnOptions = NoSpawnOptions | SpawnOptions(detached: JsValue, shell: bool)

  /** `SystemProcessExecutable`. */
  datatype Executable = Executable(executablePath: string, arguments: seq<string>, filePath: string,
                                   options: SpawnOptions)

  /** What a constructed provider records: its display name and its platform tag. */
  datatype ProviderInfo = ProviderInfo(providerName: string, platform: string)

  /**
   * The `CoreOSProvider` constructor: the name passed in goes through the
   * subclass's `resolveProvider` before it is stored.
   */
  function NewProvider(resolveProvider: string -> string, name: string, platform: string): (p: ProviderInfo)
    ensures p.providerName == resolveProvider(name)
    ensures p.platform == platform
  {
    ProviderInfo(resolveProvider(name), platform)
  }

  /** The base `resolveProvider`: the name unchanged. */
  function ResolveProvider(providerName: string): (r: string)
    ensures r == providerName
  {
    providerName
  }

  /** With the base resolver, a provider keeps the name it was given. */
  lemma BaseProviderKeepsName(name: string, platform: string)
    ensures NewProvider(ResolveProvider, name, platform).providerName == name
  {
  }

  /** The base `resolvePath`: the path unchanged. */
  function ResolvePath(path: string): (r: string)
    ensures r == path
  {
    path
  }

  /** The base `buildExecutablePath`: the path unchanged, whatever the options. */
  function BuildExecutablePath(path: string, options: Option<LaunchOptions>): (r: string)
    ensures r == path
  {
    path
  }

  /** The base `validateFlagString`: every string is a valid flag. */
  predicate ValidateFlagString(flag: string) {
    true
  }

  /** `Array.isArray(flags) ? flags : [flags]`. */
  function NormalizeFlags(flags: FlagsArg): (items: seq<JsValue>)
    ensures flags.FlagArray? ==> items == flags.items
    ensures flags.FlagScalar? ==> items == [flags.value]
  {
    match flags
    case FlagArray(items) => items
    case FlagScalar(v) => [v]
  }

  /** The strings among `items` that `validate` accepts, in order. */
  function KeepValidStrings(validate: string -> bool, items: seq<JsValue>): (kept: seq<string>)
    ensures |kept| <= |items|
    ensures forall j :: 0 <= j < |kept| ==> validate(kept[j]) && Str(kept[j]) in items
  {
    if |items| == 0 then []
    else
      var rest := KeepValidStrings(validate, items[1..]);
      assert forall x :: x in items[1..] ==> x in items;
      if items[0].Str? && validate(items[0].s) then [items[0].s] + rest else rest
  }

  /**
   * `buildExecutableFlags(flags)` with the provider's flag validator: the
   * string elements of the normalised list that pass validation, in order.
   */
  function BuildExecutableFlags(validate: string -> bool, flags: FlagsArg): (validated: seq<string>)
    ensures |validated| <= |NormalizeFlags(flags)|
    ensures forall j :: 0 <= j < |validated| ==> validate(validated[j]) && Str(validated[j]) in NormalizeFlags(flags)
  {
    KeepValidStrings(validate, NormalizeFlags(flags))
  }

  /** Dropping the non-string and rejected elements keeps the accepted strings in input order. */
  lemma {:induction false} KeepValidStringsOrder(validate: string -> bool, items: seq<JsValue>, a: seq<JsValue>, b: seq<JsValue>)
    requires items == a + b
    ensures KeepValidStrings(validate, items) == KeepValidStrings(validate, a) + KeepValidStrings(validate, b)
    decreases |a|
  {
    if |a| > 0 {
      assert items[1..] == a[1..] + b;
      KeepValidStringsOrder(validate, items[1..], a[1..], b);
    } else {
      assert items == b;
    }
  }

  /** A non-array `undefined`, `null` or non-string flag yields no arguments. */
  lemma NonStringScalarGivesNothing(validate: string -> bool, v: JsValue)
    requires !v.Str?
    ensures BuildExecutableFlags(validate, FlagScalar(v)) == []
  {
    assert NormalizeFlags(FlagScalar(v))[1..] == [];
  }

  /** With the default validator, an array of strings comes back unchanged. */
  lemma {:induction false} AllStringFlagsKept(items: seq<JsValue>)
    requires forall j :: 0 <= j < |items| ==> items[j].Str?
    ensures |KeepValidStrings(s => ValidateFlagString(s), items)| == |items|
    ensures forall j :: 0 <= j < |items| ==> Str(KeepValidStrings(s => ValidateFlagString(s), items)[j]) == items[j]
  {
    if |items| > 0 {
      AllStringFlagsKept(items[1..]);
      var rest := KeepValidStrings(s => ValidateFlagString(s), items[1..]);
      assert KeepValidStrings(s => ValidateFlagString(s), items) == [items[0].s] + rest;
    }
  }

  /**
   * The base `buildExecutable(path, options)`: the file path kept, the
   * executable path from the provider's builder, the flags filtered, and
   * no spawn options.
   */
  function BuildExecutable(buildPath: (string, Option<LaunchOptions>) -> string, validate: string -> bool,
                           path: string, options: Option<LaunchOptions>): (e: Executable)
    ensures e.filePath == path
    ensures e.executablePath == buildPath(path, options)
    ensures e.arguments == BuildExecutableFlags(validate, FlagsOf(options))
    ensures e.options == NoSpawnOptions
  {
    Executable(buildPath(path, options), BuildExecutableFlags(validate, FlagsOf(options)), path, NoSpawnOptions)
  }

  /** With the base builders, the executable path is the file path itself. */
  lemma BaseExecutablePathIsFilePath(path: string, options: Option<LaunchOptions>)
    ensures BuildExecutable(BuildExecutablePath, s => ValidateFlagString(s), path, options).executablePath == path
  {
  }
}
