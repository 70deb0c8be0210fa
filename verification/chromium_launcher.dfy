/**
 * The Chromium launcher, `src/modules/launcher/interfaces/chromium/chromium.launcher.ts`:
 * the merge of the default and user flags, the normalisation of the launch
 * options before they reach the base launcher, the platform map it keeps,
 * and the processes `closeAll` kills. The environment's `CHROME_PATH` entry
 * is a parameter.
 */
module ChromiumLauncher {
  import opened Js
  import opened Strings
  import opened Platform
  import ApplicationResolver
  import ApplicationLauncher

  /** `DEFAULT_CHROMIUM_URL`. */
  const DefaultChromiumUrl: string := "www.google.com"

  /** The features `--disable-features` lists. */
  const DisabledFeatures: seq<string> := [
    "Translate", "OptimizationHints", "MediaRouter", "DialMediaRouteProvider",
    "CalculateNativeWinOcclusion", "InterestFeedContentSuggestions",
    "CertificateTransparencyComponentUpdater", "AutofillServerCommunication"]

  /** The features `--enable-features` lists. */
  const EnabledFeatures: seq<string> := [
    "ParallelDownloading", "UnexpireFlagsM90", "VaapiVideoEncoder", "VaapiVideoDecoder",
    "CanvasOopRasterization"]

  /** `DEFAULT_FLAGS`. */
  const DefaultFlags: seq<string> := [
    "--disable-features=" + Join(DisabledFeatures, ","),
    "--enable-features=" + Join(EnabledFeatures, ","),
    "--disable-software-rasterizer", "--disable-gpu-driver-workarounds", "--disable-gpu-vsync",
    "--enable-accelerated-2d-canvas", "--enable-accelerated-video-decode",
    "--enable-accelerated-mjpeg-decode", "--enable-drdc", "--enable-gpu-compositing",
    "--enable-native-gpu-memory-buffers", "--enable-gpu-rasterization", "--mute-audio",
    "--no-default-browser-check", "--no-first-run", "--disable-backgrounding-occluded-windows",
    "--disable-renderer-backgrounding", "--disable-background-timer-throttling",
    "--disable-ipc-flooding-protection", "--password-store=basic", "--use-mock-keychain",
    "--disable-hang-monitor", "--disable-prompt-on-repost", "--disable-domain-reliability"]

  /** There are 24 default flags, none of them empty. */
  lemma DefaultFlagsShape()
    ensures |DefaultFlags| == 24
    ensures forall j :: 0 <= j < |DefaultFlags| ==> DefaultFlags[j] != ""
  {
  }

  /** `CHROME_APPLICATION_MAP` without its weights; its `darwin: null` entries are absent. */
  const ChromeApplicationMap: PlatformMap := [
    AppEntry("google-chrome-stable", map["linux" := "google-chrome-stable", "windows" := "chrome.exe"]),
    AppEntry("google-chrome", map["linux" := "google-chrome", "windows" := "chrome.exe"]),
    AppEntry("thorium", map["linux" := "thorium", "windows" := "thorium.exe"]),
    AppEntry("thorium-browser", map["linux" := "thorium-browser", "windows" := "thorium.exe"]),
    AppEntry("chromium-browser", map["linux" := "chromium-browser", "windows" := "chrome.exe"]),
    AppEntry("chromium", map["linux" := "chromium", "windows" := "chrome.exe"])]

  /** The non-empty strings of `s`, in order: what the `if (value) merge.push(value)` loops keep. */
  function NonEmpty(s: seq<string>): (r: seq<string>)
    ensures |r| <= |s|
    ensures forall x :: x in r <==> x in s && x != ""
  {
    if |s| == 0 then []
    else
      var rest := NonEmpty(s[1..]);
      assert forall x :: x in s <==> x == s[0] || x in s[1..];
      if s[0] != "" then [s[0]] + rest else rest
  }

  /** Filtering distributes over concatenation, so order is kept across the two loops. */
  lemma {:induction false} NonEmptyConcat(a: seq<string>, b: seq<string>)
    ensures NonEmpty(a + b) == NonEmpty(a) + NonEmpty(b)
    decreases |a|
  {
    if |a| == 0 {
      assert a + b == b;
    } else {
      assert (a + b)[1..] == a[1..] + b;
      NonEmptyConcat(a[1..], b);
    }
  }

  /** Filtering a list without empty strings changes nothing. */
  lemma {:induction false} NonEmptyKeepsAll(s: seq<string>)
    requires forall j :: 0 <= j < |s| ==> s[j] != ""
    ensures NonEmpty(s) == s
    decreases |s|
  {
    if |s| > 0 {
      NonEmptyKeepsAll(s[1..]);
    }
  }

  /** One `if (value) merge.push(value)` loop: the non-empty strings of `s` go after `merge`, in order. */
  method PushNonEmpty(merge: seq<string>, s: seq<string>) returns (r: seq<string>)
    ensures r == merge + NonEmpty(s)
  {
    r := merge;
    var i := 0;
    while i < |s|
      invariant 0 <= i <= |s|
      invariant r == merge + NonEmpty(s[..i])
    {
      var value := s[i];
      NonEmptyConcat(s[..i], [value]);
      assert s[..i + 1] == s[..i] + [value];
      if value != "" {
        r := r + [value];
      }
      i := i + 1;
    }
    assert s[..i] == s;
  }

  /**
   * `flags(overrides)`: the non-empty default flags, then the non-empty
   * overrides, each in their original order. Missing overrides add nothing.
   */
  method Flags(overrides: Option<seq<string>>) returns (merge: seq<string>)
    ensures merge == NonEmpty(DefaultFlags) + NonEmpty(overrides.GetOr([]))
  {
    var defaults := PushNonEmpty([], DefaultFlags);
    assert defaults == NonEmpty(DefaultFlags);
    merge := PushNonEmpty(defaults, overrides.GetOr([]));
  }

  /** With no overrides the merge is exactly the default flags; otherwise they follow the 24 defaults. */
  lemma FlagsLength(overrides: seq<string>)
    ensures NonEmpty(DefaultFlags) == DefaultFlags
    ensures |NonEmpty(DefaultFlags) + NonEmpty(overrides)| == 24 + |NonEmpty(overrides)|
  {
    DefaultFlagsShape();
    NonEmptyKeepsAll(DefaultFlags);
  }

  /** The `ChromeOptions` fields `launch` reads. */
  datatype ChromeOptions = ChromeOptions(
    app: Option<ApplicationResolver.AppSpec>,
    flags: Option<seq<string>>,
    executablePath: Option<string>,
    exclusive: JsValue,
    debugPort: Option<int>,
    url: Option<string>,
    kiosk: JsValue)

  /** The options `launch` hands to the base launcher, and whether it connects the debugger. */
  datatype Normalised = Normalised(app: ApplicationResolver.AppSpec, flags: seq<string>, executablePath: Option<string>,
                                   exclusive: bool, debugging: bool)

  /** `!options.app`: missing, or a falsy single name. */
  predicate MissingApp(app: Option<ApplicationResolver.AppSpec>) {
    app.None? || (app.value.AppName? && !Truthy(app.value.name))
  }

  /** The list `launch` appends to the user's flags: the debugging port, the url, then `--kiosk`. */
  function LaunchExtras(options: ChromeOptions): (extras: seq<string>)
    ensures |extras| == 1 + (if options.debugPort.Some? then 1 else 0) + (if Truthy(options.kiosk) then 1 else 0)
    ensures options.debugPort.Some? ==> extras[0] == "--remote-debugging-port=" + IntToString(options.debugPort.value)
    ensures extras[if options.debugPort.Some? then 1 else 0] == (if Filled(options.url) then options.url.value else DefaultChromiumUrl)
    ensures Truthy(options.kiosk) ==> extras[|extras| - 1] == "--kiosk"
  {
    var debug := if options.debugPort.Some? then ["--remote-debugging-port=" + IntToString(options.debugPort.value)] else [];
    var url := if Filled(options.url) then options.url.value else DefaultChromiumUrl;
    var kiosk := if Truthy(options.kiosk) then ["--kiosk"] else [];
    debug + [url] + kiosk
  }

  /**
   * `launch(options)` up to the call of the base launcher: a missing app
   * becomes the launcher's platform map, missing flags become `[]`, a
   * missing executable path is taken from `CHROME_PATH`, the extras are
   * appended to the user's flags, and the whole list goes through `flags`.
   */
  function Normalise(platformMap: PlatformMap, chromePath: Option<string>, options: Option<ChromeOptions>): (n: Normalised)
    ensures options.None? ==> n.app == ApplicationResolver.AppMap(platformMap) && !n.exclusive && !n.debugging
    ensures options.Some? ==>
              n.app == (if MissingApp(options.value.app) then ApplicationResolver.AppMap(platformMap) else options.value.app.value)
    ensures options.Some? ==>
              n.flags == NonEmpty(DefaultFlags) + NonEmpty(options.value.flags.GetOr([]) + LaunchExtras(options.value))
    ensures options.Some? ==>
              n.executablePath == (if Filled(options.value.executablePath) then options.value.executablePath else chromePath)
    ensures n.debugging <==> options.Some? && options.value.debugPort.Some?
    ensures n.exclusive <==> options.Some? && options.value.exclusive == Bool(true)
  {
    var o := options.GetOr(ChromeOptions(None, None, None, Undefined, None, None, Undefined));
    var app := if MissingApp(o.app) then ApplicationResolver.AppMap(platformMap) else o.app.value;
    var executablePath := if Filled(o.executablePath) then o.executablePath else chromePath;
    var flags := NonEmpty(DefaultFlags) + NonEmpty(o.flags.GetOr([]) + LaunchExtras(o));
    Normalised(app, flags, executablePath, o.exclusive == Bool(true), o.debugPort.Some?)
  }

  /** Without options, Chromium opens the default url with the default flags. */
  lemma NormaliseDefaults(platformMap: PlatformMap, chromePath: Option<string>)
    ensures Normalise(platformMap, chromePath, None).flags == DefaultFlags + [DefaultChromiumUrl]
    ensures Normalise(platformMap, chromePath, None).executablePath == chromePath
  {
    var o := ChromeOptions(None, None, None, Undefined, None, None, Undefined);
    assert LaunchExtras(o) == [DefaultChromiumUrl];
    assert [] + [DefaultChromiumUrl] == [DefaultChromiumUrl];
    assert NonEmpty([DefaultChromiumUrl]) == [DefaultChromiumUrl];
    FlagsLength([]);
  }

  /** The user's flags keep their place before the extras, and the url is always passed. */
  lemma NormaliseKeepsUserFlags(platformMap: PlatformMap, chromePath: Option<string>, options: ChromeOptions)
    ensures var n := Normalise(platformMap, chromePath, Some(options));
            n.flags == DefaultFlags + NonEmpty(options.flags.GetOr([])) + NonEmpty(LaunchExtras(options))
  {
    FlagsLength([]);
    NonEmptyConcat(options.flags.GetOr([]), LaunchExtras(options));
  }

  /** The Chromium launcher's own state: its platform map and the base launcher's registry. */
  datatype Chromium = Chromium(platformMap: PlatformMap, instances: ApplicationLauncher.Registry)

  /** A fresh launcher keeps the Chrome application map. */
  function New(): (c: Chromium)
    ensures c.platformMap == ChromeApplicationMap && c.instances == map[]
  {
    Chromium(ChromeApplicationMap, map[])
  }

  /** `setPlatformMap(map)`: a falsy (missing) map is ignored. */
  function SetPlatformMap(c: Chromium, m: Option<PlatformMap>): (r: Chromium)
    ensures m.None? ==> r == c
    ensures m.Some? ==> r == c.(platformMap := m.value)
  {
    if m.Some? then c.(platformMap := m.value) else c
  }

  /** The platform object of `e` names `x` for `platform`. */
  predicate NamedOn(e: AppEntry, platform: string, x: string) {
    platform in e.names && e.names[platform] == x
  }

  /** The platform's name of each entry that has one, in key order. */
  function NamesOn(m: PlatformMap, platform: string): (names: seq<string>)
    ensures |names| <= |m|
    ensures forall x :: x in names <==> exists i :: 0 <= i < |m| && NamedOn(m[i], platform, x)
  {
    if |m| == 0 then []
    else
      var rest := NamesOn(m[1..], platform);
      assert forall i :: 1 <= i < |m| ==> m[i] == m[1..][i - 1];
      assert forall x :: x in rest ==> exists i :: 0 <= i < |m| && NamedOn(m[i], platform, x) by {
        forall x | x in rest
          ensures exists i :: 0 <= i < |m| && NamedOn(m[i], platform, x)
        {
          var i :| 0 <= i < |m[1..]| && NamedOn(m[1..][i], platform, x);
          assert NamedOn(m[i + 1], platform, x);
        }
      }
      if platform in m[0].names then [m[0].names[platform]] + rest else rest
  }

  /** The processes `closeAll` kills: each entry's non-empty name for the platform, in key order. */
  function KillTargets(m: PlatformMap, platform: string): (names: seq<string>)
    ensures |names| <= |m|
    ensures forall x :: x in names <==> x != "" && exists i :: 0 <= i < |m| && NamedOn(m[i], platform, x)
  {
    NonEmpty(NamesOn(m, platform))
  }

  /**
   * `closeAll()`: every stored instance is dropped, then the kill requests
   * go out for the platform's names.
   */
  function CloseAll(c: Chromium, platform: string): (r: (Chromium, seq<string>))
    ensures r.0.platformMap == c.platformMap
    ensures r.0.instances == ApplicationLauncher.DropAll(c.instances)
    ensures r.1 == KillTargets(c.platformMap, platform)
  {
    (c.(instances := ApplicationLauncher.DropAll(c.instances)), KillTargets(c.platformMap, platform))
  }

  /** The Linux names of the default map, one entry at a time. */
  lemma DefaultLinuxNames()
    ensures NamesOn(ChromeApplicationMap, "linux") ==
              ["google-chrome-stable", "google-chrome", "thorium", "thorium-browser", "chromium-browser", "chromium"]
  {
    var m := ChromeApplicationMap;
    assert m[5..][1..] == [];
    assert NamesOn(m[5..], "linux") == ["chromium"];
    assert m[4..][1..] == m[5..];
    assert NamesOn(m[4..], "linux") == ["chromium-browser", "chromium"];
    assert m[3..][1..] == m[4..];
    assert NamesOn(m[3..], "linux") == ["thorium-browser", "chromium-browser", "chromium"];
    assert m[2..][1..] == m[3..];
    assert NamesOn(m[2..], "linux") == ["thorium", "thorium-browser", "chromium-browser", "chromium"];
    assert m[1..][1..] == m[2..];
    assert NamesOn(m[1..], "linux") == ["google-chrome", "thorium", "thorium-browser", "chromium-browser", "chromium"];
  }

  /** No entry of the default map names a macOS application. */
  lemma DefaultDarwinNames()
    ensures NamesOn(ChromeApplicationMap, "darwin") == []
  {
    assert forall i :: 0 <= i < |ChromeApplicationMap| ==> "darwin" !in ChromeApplicationMap[i].names;
  }

  /** With the default map on Linux, all six browser names are killed, in map order; on macOS, none. */
  lemma DefaultMapKills()
    ensures "chromium" in KillTargets(ChromeApplicationMap, "linux")
    ensures KillTargets(ChromeApplicationMap, "linux") ==
              ["google-chrome-stable", "google-chrome", "thorium", "thorium-browser", "chromium-browser", "chromium"]
    ensures KillTargets(ChromeApplicationMap, "darwin") == []
  {
    DefaultLinuxNames();
    NonEmptyKeepsAll(NamesOn(ChromeApplicationMap, "linux"));
    DefaultDarwinNames();
  }
}
