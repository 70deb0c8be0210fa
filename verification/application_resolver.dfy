/**
 * Executable resolution of `ApplicationResolver`
 * (`src/modules/launcher/interfaces/resolver/ApplicationResolver.ts`): an
 * existing executable path short-circuits, otherwise each candidate name is
 * searched for, in order, through the user's directory and then the
 * provider's common paths. The file test, the file-name helper and the
 * provider's `whereIs` scan are function parameters.
 */
module ApplicationResolver {
  import opened Js
  import Platform

  /** `options.app`: a name, an array of names, or a platform map. */
  datatype AppSpec = AppName(name: JsValue) | AppNames(names: seq<JsValue>) | AppMap(map_: Platform.PlatformMap)

  /** The `ApplicationLaunchOptions` fields `resolve` reads. */
  datatype ResolveOptions = ResolveOptions(app: Option<AppSpec>, executablePath: Option<string>, directory: Option<string>)

  /** The scan for one name in one directory: the response map, when the scan produced one. */
  type Scan = (string, string) -> Option<map<string, seq<string>>>

  /** `ApplicationSearchResult`. */
  datatype SearchResult = Found(application: string, path: string) | NotFound

  /** `!options?.app`: no options, no app, or a falsy single name. */
  predicate NoApp(options: Option<ResolveOptions>) {
    options.None? || options.value.app.None? || (options.value.app.value.AppName? && !Truthy(options.value.app.value.name))
  }

  /** `getCommonPaths()`: the provider's application paths, then its home path. */
  function CommonPaths(applicationPaths: seq<string>, homePath: string): (paths: seq<string>)
    ensures |paths| == |applicationPaths| + 1
    ensures paths[..|applicationPaths|] == applicationPaths && paths[|applicationPaths|] == homePath
  {
    applicationPaths + [homePath]
  }

  /** The directories searched: a string `directory` option first, then the common paths. */
  function SearchPaths(options: ResolveOptions, common: seq<string>): (paths: seq<string>)
    ensures options.directory.Some? ==> paths == [options.directory.value] + common
    ensures options.directory.None? ==> paths == common
  {
    if options.directory.Some? then [options.directory.value] + common else common
  }

  /** The scan of `dir` lists at least one path under `name`. */
  predicate Hit(scan: Scan, name: string, dir: string) {
    scan(name, dir).Some? && name in scan(name, dir).value && |scan(name, dir).value[name]| > 0
  }

  /** The position of the first directory whose scan lists `name`; `|paths|` when there is none. */
  function FirstHit(scan: Scan, name: string, paths: seq<string>): (k: nat)
    ensures k <= |paths|
    ensures forall j :: 0 <= j < k ==> !Hit(scan, name, paths[j])
    ensures k < |paths| ==> Hit(scan, name, paths[k])
    decreases |paths|
  {
    if |paths| == 0 || Hit(scan, name, paths[0]) then 0
    else
      var k := FirstHit(scan, name, paths[1..]);
      assert forall j :: 1 <= j <= k ==> paths[j] == paths[1..][j - 1];
      k + 1
  }

  /**
   * `find({name, paths})`: a non-string name is not found; otherwise the
   * first path listed under the name by the first directory whose scan
   * lists any.
   */
  function Find(scan: Scan, name: JsValue, paths: seq<string>): (r: SearchResult)
    ensures !name.Str? ==> r == NotFound
    ensures r.NotFound? <==> !name.Str? || forall i :: 0 <= i < |paths| ==> !Hit(scan, name.s, paths[i])
    ensures r.Found? ==> (r.application == name.s &&
              exists i :: 0 <= i < |paths| && Hit(scan, name.s, paths[i]) && r.path == scan(name.s, paths[i]).value[name.s][0] &&
                forall j :: 0 <= j < i ==> !Hit(scan, name.s, paths[j]))
  {
    if !name.Str? then NotFound
    else
      var k := FirstHit(scan, name.s, paths);
      if k < |paths| then Found(name.s, scan(name.s, paths[k]).value[name.s][0]) else NotFound
  }

  /** `find` locates `name` in one of `paths`. */
  predicate Locates(scan: Scan, name: JsValue, paths: seq<string>) {
    Find(scan, name, paths).Found?
  }

  /** The position of the first candidate name that `find` locates; `|names|` when there is none. */
  function FirstLocated(scan: Scan, names: seq<JsValue>, paths: seq<string>): (k: nat)
    ensures k <= |names|
    ensures forall j :: 0 <= j < k ==> !Locates(scan, names[j], paths)
    ensures k < |names| ==> Locates(scan, names[k], paths)
    decreases |names|
  {
    if |names| == 0 || Locates(scan, names[0], paths) then 0
    else
      var k := FirstLocated(scan, names[1..], paths);
      assert forall j :: 1 <= j <= k ==> names[j] == names[1..][j - 1];
      k + 1
  }

  /** The first candidate name that `find` locates, reported under that name. */
  function FindFirst(scan: Scan, names: seq<JsValue>, paths: seq<string>): (r: SearchResult)
    ensures r.NotFound? <==> forall i :: 0 <= i < |names| ==> !Locates(scan, names[i], paths)
    ensures r.Found? ==> exists i :: 0 <= i < |names| && r == Find(scan, names[i], paths) &&
                           forall j :: 0 <= j < i ==> !Locates(scan, names[j], paths)
  {
    var k := FirstLocated(scan, names, paths);
    if k < |names| then Find(scan, names[k], paths) else NotFound
  }

  /** `this.isFile(options?.executablePath) === true`: an existing executable short-circuits the search. */
  predicate HasExisting(isFile: string -> bool, options: ResolveOptions) {
    options.executablePath.Some? && isFile(options.executablePath.value)
  }

  /** How `resolve` ends: `undefined`, a search result, or the hand-over to the platform-map search. */
  datatype ResolveOutcome = Unresolved | Resolved(result: SearchResult) | MapSearch(app: AppSpec, paths: seq<string>)

  /** Lines 111-130 of the source: the names searched in order, the first one found winning. */
  function SearchNames(scan: Scan, names: seq<JsValue>, paths: seq<string>): (r: ResolveOutcome)
    ensures r.Unresolved? <==> forall i :: 0 <= i < |names| ==> !Locates(scan, names[i], paths)
    ensures r.Resolved? ==> r.result.Found?
    ensures r.Resolved? ==> exists i :: 0 <= i < |names| && r.result == Find(scan, names[i], paths) &&
                              forall j :: 0 <= j < i ==> !Locates(scan, names[j], paths)
  {
    var found := FindFirst(scan, names, paths);
    if found.Found? then Resolved(found) else Unresolved
  }

  /**
   * `resolve(options)` as written: no app resolves `undefined`; an existing
   * executable file is found at once, under its file name; otherwise the
   * directories are the user's and the common paths, and an app of type
   * `object` goes to the map search. An array's `typeof` is `object` too,
   * so a list of names goes to the map search, not to the name loop.
   */
  function ResolveAsWritten(isFile: string -> bool, fileName: string -> string, scan: Scan,
                            applicationPaths: seq<string>, homePath: string, options: Option<ResolveOptions>): (r: ResolveOutcome)
    ensures NoApp(options) ==> r == Unresolved
    ensures !NoApp(options) && options.value.executablePath.Some? && isFile(options.value.executablePath.value) ==>
              r == Resolved(Found(fileName(options.value.executablePath.value), options.value.executablePath.value))
    ensures r.Resolved? ==> r.result.Found?
    ensures !NoApp(options) && !HasExisting(isFile, options.value) ==>
              var paths := SearchPaths(options.value, CommonPaths(applicationPaths, homePath));
              var app := options.value.app.value;
              (app.AppName? ==> r == SearchNames(scan, [app.name], paths)) &&
              (!app.AppName? ==> r == MapSearch(app, paths))
  {
    if NoApp(options) then Unresolved
    else
      var o := options.value;
      if HasExisting(isFile, o) then
        Resolved(Found(fileName(o.executablePath.value), o.executablePath.value))
      else
        var paths := SearchPaths(o, CommonPaths(applicationPaths, homePath));
        match o.app.value
        case AppMap(_) => MapSearch(o.app.value, paths)
        case AppNames(_) => MapSearch(o.app.value, paths)
        case AppName(n) => SearchNames(scan, [n], paths)
  }

  /** As written, a list of candidate names never reaches the in-order name search. */
  lemma NameListSkipsNameSearchAsWritten(isFile: string -> bool, fileName: string -> string, scan: Scan,
                                         applicationPaths: seq<string>, homePath: string, names: seq<JsValue>)
    ensures ResolveAsWritten(isFile, fileName, scan, applicationPaths, homePath, Some(ResolveOptions(Some(AppNames(names)), None, None)))
         == MapSearch(AppNames(names), CommonPaths(applicationPaths, homePath))
  {
  }

  /**
   * `resolve(options)` with the array test made before the object test, as
   * the name loop intends: a single name or a list of names is searched in
   * order and the first one found wins; only a platform map goes to the
   * map search.
   */
  function Resolve(isFile: string -> bool, fileName: string -> string, scan: Scan,
                   applicationPaths: seq<string>, homePath: string, options: Option<ResolveOptions>): (r: ResolveOutcome)
    ensures NoApp(options) ==> r == Unresolved
    ensures !NoApp(options) && options.value.executablePath.Some? && isFile(options.value.executablePath.value) ==>
              r == Resolved(Found(fileName(options.value.executablePath.value), options.value.executablePath.value))
    ensures r.Resolved? ==> r.result.Found?
    ensures r.MapSearch? ==> r.app.AppMap?
    ensures !NoApp(options) && !HasExisting(isFile, options.value) ==>
              var paths := SearchPaths(options.value, CommonPaths(applicationPaths, homePath));
              var app := options.value.app.value;
              (app.AppName? ==> r == SearchNames(scan, [app.name], paths)) &&
              (app.AppNames? ==> r == SearchNames(scan, app.names, paths)) &&
              (app.AppMap? ==> r == MapSearch(app, paths))
  {
    if NoApp(options) then Unresolved
    else
      var o := options.value;
      if HasExisting(isFile, o) then
        Resolved(Found(fileName(o.executablePath.value), o.executablePath.value))
      else
        var paths := SearchPaths(o, CommonPaths(applicationPaths, homePath));
        match o.app.value
        case AppMap(_) => MapSearch(o.app.value, paths)
        case AppNames(ns) => SearchNames(scan, ns, paths)
        case AppName(n) => SearchNames(scan, [n], paths)
  }

  /**
   * Without an existing executable, a list of names is found exactly when
   * one of them is found in the directories searched (the user's first),
   * and the first such name is reported.
   */
  lemma ResolveSearchesInOrder(isFile: string -> bool, fileName: string -> string, scan: Scan,
                               applicationPaths: seq<string>, homePath: string, options: ResolveOptions)
    requires options.app.Some? && options.app.value.AppNames?
    requires !HasExisting(isFile, options)
    ensures var paths := SearchPaths(options, CommonPaths(applicationPaths, homePath));
            var names := options.app.value.names;
            var r := Resolve(isFile, fileName, scan, applicationPaths, homePath, Some(options));
            (r.Unresolved? <==> forall i :: 0 <= i < |names| ==> !Locates(scan, names[i], paths)) &&
            (r.Resolved? ==> exists i :: 0 <= i < |names| && r.result == Find(scan, names[i], paths) &&
                               forall j :: 0 <= j < i ==> !Locates(scan, names[j], paths))
  {
  }

  /**
   * Without an existing executable, a single truthy name is searched
   * through the user's directory and then the common paths, by both
   * versions: it resolves exactly when some directory's scan lists it, and
   * then to the first such directory's first path.
   */
  lemma ResolveSingleName(isFile: string -> bool, fileName: string -> string, scan: Scan,
                          applicationPaths: seq<string>, homePath: string, options: ResolveOptions)
    requires options.app.Some? && options.app.value.AppName? && Truthy(options.app.value.name)
    requires !HasExisting(isFile, options)
    ensures var paths := SearchPaths(options, CommonPaths(applicationPaths, homePath));
            var name := options.app.value.name;
            var r := Resolve(isFile, fileName, scan, applicationPaths, homePath, Some(options));
            && r == ResolveAsWritten(isFile, fileName, scan, applicationPaths, homePath, Some(options))
            && (r.Unresolved? <==> !Locates(scan, name, paths))
            && (r.Resolved? ==> name.Str?)
            && (r.Resolved? ==>
                  exists k :: 0 <= k < |paths| && Hit(scan, name.s, paths[k]) &&
                    (forall j :: 0 <= j < k ==> !Hit(scan, name.s, paths[j])) &&
                    r.result == Found(name.s, scan(name.s, paths[k]).value[name.s][0]))
  {
  }

  /** For a single name, both versions agree. */
  lemma SingleNameAgrees(isFile: string -> bool, fileName: string -> string, scan: Scan,
                         applicationPaths: seq<string>, homePath: string, options: Option<ResolveOptions>)
    requires options.Some? ==> options.value.app.Some? ==> !options.value.app.value.AppNames?
    ensures ResolveAsWritten(isFile, fileName, scan, applicationPaths, homePath, options)
         == Resolve(isFile, fileName, scan, applicationPaths, homePath, options)
  {
  }

  /**
   * The user's directory is searched first: a hit there decides the path
   * of a single name whatever the common paths hold.
   */
  lemma UserDirectoryFirst(scan: Scan, name: string, dir: string, common: seq<string>)
    requires Hit(scan, name, dir)
    ensures Find(scan, Str(name), [dir] + common) == Found(name, scan(name, dir).value[name][0])
  {
  }
}
