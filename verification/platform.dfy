/**
 * Application platform maps, `src/modules/launcher/tools/platform.ts` and
 * `ApplicationPathResolver.resolveFor`
 * (`src/modules/launcher/interfaces/resolver/ApplicationPathResolver.ts`):
 * an application key maps to an object from platform name to that
 * platform's executable name. Object keys keep their insertion order, so a
 * map is a sequence of entries; a `null` platform entry is an absent one.
 */
module Platform {
  import opened Js

  /** `DEFAULT_PLATFORM_NAME`. */
  const DefaultPlatformName: string := "linux"

  /** The platform object of one application: platform name to executable name. */
  type PlatformNames = map<string, string>

  /** One application of an `ApplicationPlatformMap`. */
  datatype AppEntry = AppEntry(key: string, names: PlatformNames)

  /** An `ApplicationPlatformMap`, in key order. */
  type PlatformMap = seq<AppEntry>

  /**
   * `resolveFor(map, options)`: the entry of the requested platform, `linux`
   * when none is requested (`options?.platform ?? "linux"`); `None` stands
   * for the `undefined` or `null` of a missing or null entry.
   */
  function ResolveFor(names: PlatformNames, platform: Option<string>): (r: Option<string>)
    ensures r.Some? <==> platform.GetOr(DefaultPlatformName) in names
    ensures r.Some? ==> r.value == names[platform.GetOr(DefaultPlatformName)]
  {
    var platformName := platform.GetOr(DefaultPlatformName);
    if platformName in names then Some(names[platformName]) else None
  }

  /** An empty requested platform is still a requested platform: `??` only replaces a missing one. */
  lemma ResolveForEmptyPlatform(names: PlatformNames)
    requires "" in names
    ensures ResolveFor(names, Some("")) == Some(names[""])
  {
  }

  /** The platform object of the first entry with the given key, as `map[key]` reads it. */
  function EntryFor(m: PlatformMap, key: string): (r: Option<PlatformNames>)
    ensures r.None? <==> forall i :: 0 <= i < |m| ==> m[i].key != key
    ensures r.Some? ==> exists i :: 0 <= i < |m| && m[i] == AppEntry(key, r.value) &&
                          forall j :: 0 <= j < i ==> m[j].key != key
  {
    if |m| == 0 then None
    else if m[0].key == key then Some(m[0].names)
    else
      var r := EntryFor(m[1..], key);
      assert forall i :: 1 <= i < |m| ==> m[i] == m[1..][i - 1];
      if r.Some? then
        var i :| 0 <= i < |m[1..]| && m[1..][i] == AppEntry(key, r.value) &&
                 forall j :: 0 <= j < i ==> m[1..][j].key != key;
        assert m[i + 1] == AppEntry(key, r.value);
        r
      else r
  }

  /**
   * `createDefaultPlatformMap(name)`: one application, `name`, whose
   * platform object has the one entry `linux: name`.
   */
  function CreateDefaultPlatformMap(name: string): (m: PlatformMap)
    ensures |m| == 1 && m[0].key == name
    ensures m[0].names.Keys == {DefaultPlatformName} && m[0].names[DefaultPlatformName] == name
  {
    [AppEntry(name, map[DefaultPlatformName := name])]
  }

  /** Round trip: the default map of `name`, read back for the default platform, is `name`. */
  lemma DefaultMapRoundTrip(name: string)
    ensures EntryFor(CreateDefaultPlatformMap(name), name).Some?
    ensures ResolveFor(EntryFor(CreateDefaultPlatformMap(name), name).value, None) == Some(name)
  {
  }

  /** The default map names the application only for `linux`. */
  lemma DefaultMapOnlyLinux(name: string, platform: string)
    requires platform != DefaultPlatformName
    ensures ResolveFor(EntryFor(CreateDefaultPlatformMap(name), name).value, Some(platform)).None?
  {
  }
}
