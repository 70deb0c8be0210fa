/**
 * The install queue of `NpmService` (`src/modules/npm/services/npm.service.ts`):
 * which modules are admitted, the LIFO queue of install tokens, the `busy`
 * flag, the command-line arguments of `npm`, and the registry URLs. The
 * token id (`randomUUID`) is a parameter; the installs themselves, the
 * timer that re-runs the checks and the registry fetch are not modelled.
 */
module NpmService {
  import opened Js
  import opened Strings

  /** The `NpmModule` fields the service reads. */
  datatype NpmModule = NpmModule(name: JsValue, version: Option<string>, global: JsValue, development: JsValue,
                                 tarPath: Option<string>)

  /** A queued `ModuleToken`; its promise is always present and is left implicit. */
  datatype Token = Token(id: string, pkg: NpmModule)

  /** The service's queue and `busy` flag. */
  datatype NpmState = NpmState(queue: seq<Token>, busy: bool)

  /** A fresh service: nothing queued, not busy. */
  function New(): (s: NpmState)
    ensures s.queue == [] && !s.busy
  {
    NpmState([], false)
  }

  /** `isValid(module)`: the module's name is a string. */
  predicate IsValid(pkg: Option<NpmModule>) {
    pkg.Some? && pkg.value.name.Str?
  }

  /** The module `update(module)` installs: the given one, or the pseudo-module named `update`. */
  function UpdateModule(pkg: Option<NpmModule>): (m: NpmModule)
    ensures pkg.Some? ==> m == pkg.value
    ensures pkg.None? ==> m.name == Str("update") && m.version.None? && !Truthy(m.global) && !Truthy(m.development)
  {
    if pkg.Some? then pkg.value else NpmModule(Str("update"), None, Undefined, Undefined, None)
  }

  /**
   * `_createExecutableArguments(module)`: `update --save` for the name
   * `update`; otherwise `install <name>` with `:<version>` for a non-empty
   * version, then `-g` for `global === true`, else `--save-dev` for a truthy
   * `development`, else `--save`.
   */
  function CreateExecutableArguments(pkg: NpmModule): (args: seq<string>)
    ensures |args| == 2
    ensures args[0] == "update" <==> pkg.name == Str("update")
    ensures pkg.name == Str("update") ==> args[1] == "--save"
    ensures pkg.name != Str("update") ==>
              args[0] == "install " + JsString(pkg.name) + (if Filled(pkg.version) then ":" + pkg.version.value else "")
    ensures args[1] == "-g" <==> pkg.name != Str("update") && pkg.global == Bool(true)
    ensures args[1] == "--save-dev" <==> pkg.name != Str("update") && pkg.global != Bool(true) && Truthy(pkg.development)
  {
    var name := pkg.name;
    var version := pkg.version.GetOr("");
    if name == Str("update") then ["update", "--save"]
    else
      var package := "install " + JsString(name) + (if version != "" then ":" + version else "");
      assert package[0] == 'i';
      if pkg.global == Bool(true) then [package, "-g"]
      else if Truthy(pkg.development) then [package, "--save-dev"]
      else [package, "--save"]
  }

  /** `_enqueue(token)`: the token goes to the back of the queue. */
  function Enqueue(s: NpmState, t: Token): (r: NpmState)
    ensures r.busy == s.busy && |r.queue| == |s.queue| + 1
    ensures r.queue[..|s.queue|] == s.queue && r.queue[|s.queue|] == t
  {
    s.(queue := s.queue + [t])
  }

  /** `_dequeue()`: the token at the back of the queue, if any, is removed and returned. */
  function Dequeue(s: NpmState): (r: (NpmState, Option<Token>))
    ensures r.0.busy == s.busy
    ensures s.queue == [] ==> r == (s, None)
    ensures s.queue != [] ==> r.1 == Some(s.queue[|s.queue| - 1]) && r.0.queue + [r.1.value] == s.queue
  {
    if s.queue == [] then (s, None)
    else (s.(queue := s.queue[..|s.queue| - 1]), Some(s.queue[|s.queue| - 1]))
  }

  /** The queue is last-in first-out: dequeuing right after enqueuing returns that token and the old queue. */
  lemma EnqueueDequeue(s: NpmState, t: Token)
    ensures Dequeue(Enqueue(s, t)) == (s, Some(t))
  {
    assert (s.queue + [t])[..|s.queue|] == s.queue;
  }

  /** `_runChecks` installs a dequeued token when it has an id and a valid module. */
  predicate Startable(t: Token) {
    t.id != "" && IsValid(Some(t.pkg))
  }

  /**
   * One `_runChecks()` up to its first await: an empty queue clears `busy`;
   * otherwise `busy` is set, one token is dequeued, and its install starts
   * when the token is startable.
   */
  function RunChecks(s: NpmState): (r: (NpmState, Option<Token>))
    ensures s.queue == [] ==> r == (NpmState([], false), None)
    ensures s.queue != [] ==> r.0.busy && r.0.queue == s.queue[..|s.queue| - 1]
    ensures r.1.Some? <==> s.queue != [] && Startable(s.queue[|s.queue| - 1])
    ensures r.1.Some? ==> r.1.value == s.queue[|s.queue| - 1]
  {
    if s.queue == [] then (s.(busy := false), None)
    else
      var (rest, token) := Dequeue(s.(busy := true));
      (rest, if Startable(token.value) then token else None)
  }

  /** What `install(module)` did: ignored the module, or queued it and possibly started a check. */
  datatype InstallOutcome = Ignored | Queued(started: Option<Token>)

  /**
   * `install(module)`: a missing module or a falsy name resolves `undefined`
   * and changes nothing; otherwise the module is queued under a new token,
   * and when the service is not busy a check runs at once.
   */
  function Install(s: NpmState, pkg: Option<NpmModule>, id: string): (r: (NpmState, InstallOutcome))
    ensures r.1.Ignored? <==> pkg.None? || !Truthy(pkg.value.name)
    ensures r.1.Ignored? ==> r.0 == s
    ensures r.1.Queued? && s.busy ==> r.0 == Enqueue(s, Token(id, pkg.value)) && r.1.started.None?
    ensures r.1.Queued? && !s.busy ==> r.0 == NpmState(s.queue, true)
    ensures r.1.Queued? && !s.busy ==>
              (r.1.started.Some? <==> Startable(Token(id, pkg.value)))
  {
    if pkg.None? || !Truthy(pkg.value.name) then (s, Ignored)
    else
      var queued := Enqueue(s, Token(id, pkg.value));
      if s.busy then (queued, Queued(None))
      else
        EnqueueDequeue(s, Token(id, pkg.value));
        var (next, started) := RunChecks(queued);
        (next, Queued(started))
  }

  /**
   * An idle service starts the module it was just given, not an older one,
   * and leaves the older queue untouched.
   */
  lemma IdleInstallStartsNewest(s: NpmState, m: NpmModule, id: string)
    requires !s.busy && id != "" && m.name.Str? && m.name.s != ""
    ensures Install(s, Some(m), id) == (NpmState(s.queue, true), Queued(Some(Token(id, m))))
  {
    EnqueueDequeue(s, Token(id, m));
  }

  /** A truthy name that is not a string is queued, but the check drops its token without installing it. */
  lemma InvalidNameQueuedButNeverStarted(s: NpmState, id: string)
    requires !s.busy
    ensures var m := NpmModule(Number(1), None, Undefined, Undefined, None);
            Install(s, Some(m), id) == (NpmState(s.queue, true), Queued(None))
  {
    EnqueueDequeue(s, Token(id, NpmModule(Number(1), None, Undefined, Undefined, None)));
  }

  /** The startable tokens of a queue, from the back to the front: the order repeated checks install them. */
  function StartOrder(q: seq<Token>): (order: seq<Token>)
    ensures |order| <= |q|
    ensures forall t :: t in order <==> t in q && Startable(t)
  {
    if q == [] then []
    else
      assert forall t :: t in q <==> t == q[0] || t in q[1..];
      StartOrder(q[1..]) + (if Startable(q[0]) then [q[0]] else [])
  }

  /** Appending a token puts it, when startable, at the front of the start order. */
  lemma {:induction false} StartOrderAppend(q: seq<Token>, t: Token)
    ensures StartOrder(q + [t]) == (if Startable(t) then [t] else []) + StartOrder(q)
    decreases |q|
  {
    if q == [] {
      assert [] + [t] == [t];
      assert [t][1..] == [];
    } else {
      assert (q + [t])[0] == q[0];
      assert (q + [t])[1..] == q[1..] + [t];
      StartOrderAppend(q[1..], t);
    }
  }

  /**
   * Checks repeated until the queue is empty, as the timer does when no
   * install is added meanwhile: the final state and the tokens installed, in
   * order.
   */
  function Drain(s: NpmState): (r: (NpmState, seq<Token>))
    decreases |s.queue|
  {
    var (next, started) := RunChecks(s);
    if s.queue == [] then (next, [])
    else
      var (last, rest) := Drain(next);
      (last, (if started.Some? then [started.value] else []) + rest)
  }

  /**
   * Draining installs exactly the startable tokens, newest first, and leaves
   * the service idle with an empty queue.
   */
  lemma {:induction false} DrainStartsNewestFirst(s: NpmState)
    ensures Drain(s).0 == NpmState([], false)
    ensures Drain(s).1 == StartOrder(s.queue)
    decreases |s.queue|
  {
    if s.queue != [] {
      var n := |s.queue|;
      var next := RunChecks(s).0;
      DrainStartsNewestFirst(next);
      assert s.queue == s.queue[..n - 1] + [s.queue[n - 1]];
      StartOrderAppend(s.queue[..n - 1], s.queue[n - 1]);
    }
  }

  /** The npm registry. */
  const Registry: string := "https://registry.npmjs.org/"

  /** The metadata URL of `getNPMPackageVersions`: the registry and the name. */
  function VersionsUrl(pkg: NpmModule): (url: string)
    ensures |Registry| <= |url| && url[..|Registry|] == Registry && url[|Registry|..] == JsString(pkg.name)
  {
    Registry + JsString(pkg.name)
  }

  /**
   * The metadata URL of `getNPMPackageURL`: the version defaults to `latest`
   * when missing, and a non-empty version is appended as one more path
   * segment.
   */
  function PackageUrl(pkg: NpmModule): (url: string)
    ensures pkg.version.None? ==> url == VersionsUrl(pkg) + "/latest"
    ensures Filled(pkg.version) ==> url == VersionsUrl(pkg) + "/" + pkg.version.value
    ensures pkg.version == Some("") ==> url == VersionsUrl(pkg)
  {
    var version := pkg.version.GetOr("latest");
    Registry + JsString(pkg.name) + (if version != "" then "/" + version else "")
  }

  /** The package URL always extends the versions URL of the same module. */
  lemma PackageUrlExtendsVersionsUrl(pkg: NpmModule)
    ensures |VersionsUrl(pkg)| <= |PackageUrl(pkg)|
    ensures PackageUrl(pkg)[..|VersionsUrl(pkg)|] == VersionsUrl(pkg)
  {
  }
}
