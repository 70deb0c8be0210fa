/**
 * The instance registry of `ApplicationLauncher`
 * (`src/modules/launcher/interfaces/ApplicationLaucher.ts`): the map from
 * application name to launched instance and its options, the capacity
 * check, storing and removing instances, dropping them, the gating of
 * `launch`, and what the close and error events decide. An instance is
 * represented by its application name; spawning it is not part of this
 * model.
 */
module ApplicationLauncher {
  import opened Js
  import Results

  /** The launch-option fields the registry's decisions read. */
  datatype LaunchRequest = LaunchRequest(restartOnExit: JsValue, exclusive: JsValue)

  /** A stored entry: the instance (by its application name) and the options it was launched with. */
  datatype Stored = Stored(appName: string, options: Option<LaunchRequest>)

  /** `instances`: key to stored entry. */
  type Registry = map<string, Stored>

  /** The launcher's state: its instances, `maxInstances` and `closeOnError`. */
  datatype Launcher = Launcher(instances: Registry, maxInstances: int, closeOnError: bool)

  /** Every entry is stored under its own application name, as `storeProcess` does it. */
  predicate Keyed(reg: Registry) {
    forall k :: k in reg ==> reg[k].appName == k
  }

  /** The registry respects the limit: a limit of 0 or less is no limit. */
  predicate WithinLimit(l: Launcher) {
    l.maxInstances <= 0 || |l.instances| <= l.maxInstances
  }

  /** The launcher the constructor builds: no instances, no limit, closing on error. */
  function New(): (l: Launcher)
    ensures l.instances == map[] && WithinLimit(l) && l.closeOnError
  {
    Launcher(map[], 0, true)
  }

  /** `canCreate()`: refused only when a positive limit is reached. */
  predicate CanCreate(l: Launcher) {
    !(l.maxInstances > 0 && |l.instances| >= l.maxInstances)
  }

  /** Below a positive limit, or with no limit, creation is allowed; at or above it, refused. */
  lemma CanCreateIff(l: Launcher)
    ensures CanCreate(l) <==> l.maxInstances <= 0 || |l.instances| < l.maxInstances
  {
  }

  /**
   * `storeProcess(instance, options)`: the instance is stored under its
   * application name unless that key is already taken, in which case
   * nothing changes.
   */
  function StoreProcess(reg: Registry, name: string, options: Option<LaunchRequest>): (r: Registry)
    ensures name in r && r[name] == (if name in reg then reg[name] else Stored(name, options))
    ensures forall k :: k in reg ==> k in r && r[k] == reg[k]
    ensures forall k :: k in r ==> k in reg || k == name
    ensures |r| == if name in reg then |reg| else |reg| + 1
  {
    if name in reg then reg else reg[name := Stored(name, options)]
  }

  /** Storing keeps every entry under its own name. */
  lemma StoreProcessKeyed(reg: Registry, name: string, options: Option<LaunchRequest>)
    requires Keyed(reg)
    ensures Keyed(StoreProcess(reg, name, options))
  {
  }

  /**
   * `removeInstance(instance)`: the key of the instance's name is deleted;
   * the answer says whether it was there.
   */
  function RemoveInstance(reg: Registry, name: string): (r: (Registry, bool))
    ensures r.1 <==> name in reg
    ensures name !in r.0
    ensures forall k :: k != name ==> (k in r.0 <==> k in reg) && (k in reg ==> r.0[k] == reg[k])
    ensures |r.0| == if name in reg then |reg| - 1 else |reg|
  {
    (reg - {name}, name in reg)
  }

  /**
   * `drop(instance)`: every entry whose instance has the given name causes
   * the key `instance` to be deleted.
   */
  function Drop(reg: Registry, name: string): (r: Registry)
    ensures (exists k :: k in reg && reg[k].appName == name) ==> r == reg - {name}
    ensures (forall k :: k in reg ==> reg[k].appName != name) ==> r == reg
  {
    if exists k :: k in reg && reg[k].appName == name then reg - {name} else reg
  }

  /** On a keyed registry, dropping a name removes exactly that name's entry. */
  lemma DropKeyed(reg: Registry, name: string)
    requires Keyed(reg)
    ensures Drop(reg, name) == reg - {name}
    ensures Keyed(Drop(reg, name))
  {
    if name in reg {
      assert reg[name].appName == name;
    }
  }

  /** `dropAll()`: the key of each entry's application name is deleted. */
  function DropAll(reg: Registry): (r: Registry)
    ensures forall k :: k in r ==> k in reg && r[k] == reg[k]
    ensures forall k :: k in reg && reg[k].appName == k ==> k !in r
  {
    reg - (set k | k in reg :: reg[k].appName)
  }

  /** A second `dropAll` finds nothing more to drop. */
  lemma DropAllIdempotent(reg: Registry)
    ensures DropAll(DropAll(reg)) == DropAll(reg)
  {
  }

  /** A keyed registry is emptied by `dropAll`. */
  lemma DropAllEmpties(reg: Registry)
    requires Keyed(reg)
    ensures DropAll(reg) == map[]
  {
  }

  /** The base `closeAll()`: each instance with a non-empty name is killed by name; the registry stays. */
  function CloseAllTargets(reg: Registry): (names: set<string>)
    ensures forall n :: n in names <==> n != "" && exists k :: k in reg && reg[k].appName == n
  {
    set k | k in reg && reg[k].appName != "" :: reg[k].appName
  }

  /** How a call to `launch` ends. */
  datatype LaunchResult =
    | Refused               // the capacity check failed: the call resolves `undefined`
    | NotFound              // no executable was found: `null`
    | Failed                // building the executable threw: caught, `null`
    | Started(name: string) // the instance was created, bound and stored

  /** A launch's effect on the launcher, and what it kills first when exclusive. */
  datatype LaunchOutcome = LaunchOutcome(launcher: Launcher, result: LaunchResult)

  /** `options?.exclusive === true`. */
  predicate Exclusive(options: Option<LaunchRequest>) {
    options.Some? && options.value.exclusive == Bool(true)
  }

  /**
   * The launcher as the base `launch` finds it. The Chromium launcher runs
   * its own `closeAll` for an exclusive launch before handing over to the
   * base `launch`, and that `closeAll` drops every entry; the base
   * launcher's `closeAll` only kills.
   */
  function Prepared(l: Launcher, options: Option<LaunchRequest>, exclusiveDrops: bool): (p: Launcher)
    ensures p.maxInstances == l.maxInstances && p.closeOnError == l.closeOnError
    ensures !(Exclusive(options) && exclusiveDrops) ==> p == l
    ensures Exclusive(options) && exclusiveDrops && Keyed(l.instances) ==> p.instances == map[]
    ensures forall k :: k in p.instances ==> k in l.instances && p.instances[k] == l.instances[k]
  {
    if Exclusive(options) && exclusiveDrops then l.(instances := DropAll(l.instances)) else l
  }

  /**
   * `launch(options)` over the resolver's answer (`resolved`: the path found,
   * or `None`), the provider's executable builder (`executablePath`), and
   * the name the created process takes (`nameOf`). The capacity check reads
   * the prepared launcher; an exclusive launch then runs `closeAll` once
   * more before creating the process, and `exclusiveDrops` says whether
   * that `closeAll` drops every entry (as the Chromium launcher's does) or
   * only kills.
   */
  function Launch(l: Launcher, options: Option<LaunchRequest>, resolved: Option<string>,
                  executablePath: string -> string, nameOf: string -> string, exclusiveDrops: bool): (o: LaunchOutcome)
    ensures var p := Prepared(l, options, exclusiveDrops);
            && (!CanCreate(p) ==> o == LaunchOutcome(p, Refused))
            && (CanCreate(p) && resolved.None? ==> o == LaunchOutcome(p, NotFound))
            && (CanCreate(p) && resolved.Some? && executablePath(resolved.value) == "" ==> o == LaunchOutcome(p, Failed))
            && (o.result.Started? <==> CanCreate(p) && resolved.Some? && executablePath(resolved.value) != "")
            && (o.result.Started? ==> o.result.name == nameOf(resolved.value) && o.result.name in o.launcher.instances)
            && |o.launcher.instances| <= |p.instances| + (if CanCreate(p) then 1 else 0)
    ensures o.result.Started? ==>
              o.launcher.instances == StoreProcess(Prepared(l, options, exclusiveDrops).instances, o.result.name, options)
    ensures o.launcher.maxInstances == l.maxInstances && o.launcher.closeOnError == l.closeOnError
    ensures !(Exclusive(options) && exclusiveDrops) && !o.result.Started? ==> o.launcher == l
  {
    var p := Prepared(l, options, exclusiveDrops);
    if !CanCreate(p) then LaunchOutcome(p, Refused)
    else if resolved.None? then LaunchOutcome(p, NotFound)
    else
      var reg := if Exclusive(options) && exclusiveDrops then DropAll(p.instances) else p.instances;
      DropAllIdempotent(l.instances);
      assert reg == p.instances;
      if executablePath(resolved.value) == "" then LaunchOutcome(p.(instances := reg), Failed)
      else
        var name := nameOf(resolved.value);
        LaunchOutcome(p.(instances := StoreProcess(reg, name, options)), Started(name))
  }

  /**
   * An exclusive Chromium launch empties a keyed registry before the
   * capacity check, so it is never refused: it starts whenever an
   * executable is found and built, and then holds that one instance.
   */
  lemma ExclusiveDroppingLaunchStarts(l: Launcher, options: Option<LaunchRequest>, resolved: Option<string>,
                                      executablePath: string -> string, nameOf: string -> string)
    requires Keyed(l.instances) && Exclusive(options)
    ensures var o := Launch(l, options, resolved, executablePath, nameOf, true);
            && o.result != Refused
            && (o.result.Started? <==> resolved.Some? && executablePath(resolved.value) != "")
            && (o.result.Started? ==> o.launcher.instances == map[o.result.name := Stored(o.result.name, options)])
  {
    var p := Prepared(l, options, true);
    assert p.instances == map[];
    assert CanCreate(p);
    assert DropAll(p.instances) == map[];
  }

  /** A launch never takes a launcher past a positive limit. */
  lemma LaunchWithinLimit(l: Launcher, options: Option<LaunchRequest>, resolved: Option<string>,
                          executablePath: string -> string, nameOf: string -> string, exclusiveDrops: bool)
    requires WithinLimit(l)
    ensures WithinLimit(Launch(l, options, resolved, executablePath, nameOf, exclusiveDrops).launcher)
  {
    var p := Prepared(l, options, exclusiveDrops);
    assert p.instances.Keys <= l.instances.Keys;
    SubsetCard(p.instances.Keys, l.instances.Keys);
  }

  /** A subset is no larger than its superset. */
  lemma {:induction false} SubsetCard<K>(a: set<K>, b: set<K>)
    requires a <= b
    ensures |a| <= |b|
    decreases |b|
  {
    if b != {} {
      var x :| x in b;
      SubsetCard(a - {x}, b - {x});
    }
  }

  /** What a close event decides: the registry afterwards, and the options to relaunch with, if any. */
  datatype CloseOutcome = CloseOutcome(instances: Registry, relaunch: Option<Option<LaunchRequest>>)

  /** `options?.restartOnExit === true`. */
  predicate RestartsOnExit(options: Option<LaunchRequest>) {
    options.Some? && options.value.restartOnExit == Bool(true)
  }

  /**
   * `onProcessClose(instance)` as written: the stored entry's `options` is
   * read before the entry is checked, so a close event for a name with no
   * entry throws a `TypeError` inside the event handler.
   */
  function OnProcessCloseAsWritten(reg: Registry, name: string): (r: Results.Result<CloseOutcome, string>)
    ensures r.Err? <==> name !in reg
  {
    if name !in reg then Results.Err("TypeError")
    else
      var options := reg[name].options;
      var removed := RemoveInstance(reg, name);
      Results.Ok(CloseOutcome(removed.0, if removed.1 && RestartsOnExit(options) then Some(options) else None))
  }

  /**
   * A second instance of an application already running is bound but not
   * stored; when it closes it removes the first instance's entry, and the
   * first instance's own close event then throws.
   */
  lemma SecondInstanceCloseCrashesAsWritten(reg: Registry, name: string, first: Option<LaunchRequest>,
                                            second: Option<LaunchRequest>)
    requires name !in reg
    ensures var stored := StoreProcess(StoreProcess(reg, name, first), name, second);
            OnProcessCloseAsWritten(stored, name).Ok? &&
            OnProcessCloseAsWritten(OnProcessCloseAsWritten(stored, name).value.instances, name).Err?
  {
  }

  /**
   * `onProcessClose(instance)` with the entry checked before it is read: a
   * close event for a name with no entry changes nothing; otherwise the
   * entry is removed, and a relaunch with the stored options is scheduled
   * when they ask to restart on exit.
   */
  function OnProcessClose(reg: Registry, name: string): (o: CloseOutcome)
    ensures name !in reg ==> o == CloseOutcome(reg, None)
    ensures name in reg ==> o.instances == reg - {name}
    ensures o.relaunch.Some? <==> name in reg && RestartsOnExit(reg[name].options)
    ensures o.relaunch.Some? ==> o.relaunch.value == reg[name].options
  {
    if name !in reg then CloseOutcome(reg, None)
    else
      var options := reg[name].options;
      var removed := RemoveInstance(reg, name);
      CloseOutcome(removed.0, if removed.1 && RestartsOnExit(options) then Some(options) else None)
  }

  /** Whenever the as-written handler does not throw, it decides what the corrected one does. */
  lemma OnProcessCloseAgrees(reg: Registry, name: string)
    ensures OnProcessCloseAsWritten(reg, name).Ok? ==> OnProcessCloseAsWritten(reg, name).value == OnProcessClose(reg, name)
  {
  }

  /** The corrected handler keeps the registry keyed and never grows it. */
  lemma OnProcessCloseKeyed(reg: Registry, name: string)
    requires Keyed(reg)
    ensures Keyed(OnProcessClose(reg, name).instances)
    ensures |OnProcessClose(reg, name).instances| <= |reg|
  {
  }

  /** `onProcessError(instance, error)`: the instance is closed exactly when `closeOnError` is set. */
  function OnProcessError(l: Launcher, name: string): (closes: Option<string>)
    ensures closes.Some? <==> l.closeOnError
    ensures closes.Some? ==> closes.value == name
  {
    if l.closeOnError then Some(name) else None
  }

  /** The events a launcher handles, one at a time. */
  datatype Event =
    | LaunchEvent(options: Option<LaunchRequest>, resolved: Option<string>)
    | CloseEvent(name: string)
    | DropEvent(name: string)

  /** One event applied to a launcher, with the given builders and `closeAll` behaviour. */
  function Step(l: Launcher, e: Event, executablePath: string -> string, nameOf: string -> string,
                exclusiveDrops: bool): Launcher
  {
    match e
    case LaunchEvent(options, resolved) => Launch(l, options, resolved, executablePath, nameOf, exclusiveDrops).launcher
    case CloseEvent(name) => l.(instances := OnProcessClose(l.instances, name).instances)
    case DropEvent(name) => l.(instances := Drop(l.instances, name))
  }

  /** A sequence of events applied in order. */
  function Run(l: Launcher, events: seq<Event>, executablePath: string -> string, nameOf: string -> string,
               exclusiveDrops: bool): Launcher
    decreases |events|
  {
    if |events| == 0 then l
    else Run(Step(l, events[0], executablePath, nameOf, exclusiveDrops), events[1..], executablePath, nameOf, exclusiveDrops)
  }

  /**
   * Handled one at a time, launches, closes and drops never take the
   * number of stored instances past a positive `maxInstances`.
   */
  lemma {:induction false} RunWithinLimit(l: Launcher, events: seq<Event>, executablePath: string -> string,
                                          nameOf: string -> string, exclusiveDrops: bool)
    requires WithinLimit(l)
    ensures WithinLimit(Run(l, events, executablePath, nameOf, exclusiveDrops))
    ensures Run(l, events, executablePath, nameOf, exclusiveDrops).maxInstances == l.maxInstances
    decreases |events|
  {
    if |events| > 0 {
      var next := Step(l, events[0], executablePath, nameOf, exclusiveDrops);
      if events[0].LaunchEvent? {
        LaunchWithinLimit(l, events[0].options, events[0].resolved, executablePath, nameOf, exclusiveDrops);
      }
      RunWithinLimit(next, events[1..], executablePath, nameOf, exclusiveDrops);
    }
  }
}
