/**
 * Directory names from paths: `getNamedPath` and `directory` of
 * `src/tools/io.ts`, its copy in `src/modules/io/tools/directory.ts`, and
 * `getNamedPath` of `src/tools/io/directory.helper.ts`. The file-status
 * lookup (`lstatSync`), Node's `dirname` and the platform separator
 * (`path.sep`) are parameters.
 */
module Directory {
  import opened Js
  import opened Strings

  /** The characters `[\/\\]` of `DIRECTORY_REGEX` matches. */
  const DirectorySeparators: set<char> := {'/', '\\'}

  /** The characters a regular-expression `.` does not match. */
  const LineTerminators: set<char> := {'\n', '\r', '\U{2028}', '\U{2029}'}

  /** `getNamedPath(name, directory)`: the directory, a slash, the name. */
  function GetNamedPath(name: string, dir: string): (p: string)
    ensures |p| == |dir| + 1 + |name|
    ensures p[..|dir|] == dir && p[|dir|] == '/' && p[|dir| + 1..] == name
  {
    dir + "/" + name
  }

  /** The length of the first line of `s`: the index of its first line terminator, or `|s|`. */
  function FirstLineEnd(s: string): (k: nat)
    ensures k <= |s|
    ensures forall j :: 0 <= j < k ==> s[j] !in LineTerminators
    ensures k < |s| ==> s[k] in LineTerminators
  {
    if |s| == 0 || s[0] in LineTerminators then 0 else 1 + FirstLineEnd(s[1..])
  }

  /** The length of the longest prefix of `h` that is empty or ends in a separator. */
  function LastSeparatorEnd(h: string): (i: nat)
    ensures i <= |h|
    ensures i > 0 ==> h[i - 1] in DirectorySeparators
    ensures forall j :: i <= j < |h| ==> h[j] !in DirectorySeparators
  {
    if |h| == 0 then 0
    else if h[|h| - 1] in DirectorySeparators then |h|
    else LastSeparatorEnd(h[..|h| - 1])
  }

  /** `s` holds no line terminator. */
  predicate SingleLine(s: string) {
    forall j :: 0 <= j < |s| ==> s[j] !in LineTerminators
  }

  /**
   * `filePath.replace(DIRECTORY_REGEX, "$1")`. The pattern is unanchored
   * and not global: it matches once, at the start, over the first line
   * only, and the optional group keeps that line up to its last separator
   * (or nothing). The rest of the text, from the first line terminator on,
   * is kept unchanged.
   */
  function DirectoryPath(s: string): (r: string)
    ensures |r| <= |s|
    ensures SingleLine(s) ==> r == s[..|r|]
    ensures SingleLine(s) ==> (r == "" || r[|r| - 1] in DirectorySeparators)
    ensures SingleLine(s) ==> forall j :: |r| <= j < |s| ==> s[j] !in DirectorySeparators
  {
    var k := FirstLineEnd(s);
    var head := s[..k];
    var i := LastSeparatorEnd(head);
    head[..i] + s[k..]
  }

  /** Any cut of a single-line path that ends in a separator and leaves no separator after it is the directory path. */
  lemma DirectoryPathUnique(s: string, i: nat)
    requires SingleLine(s) && i <= |s|
    requires i == 0 || s[i - 1] in DirectorySeparators
    requires forall j :: i <= j < |s| ==> s[j] !in DirectorySeparators
    ensures DirectoryPath(s) == s[..i]
  {
    var r := DirectoryPath(s);
    if i > 0 {
      assert s[i - 1] in DirectorySeparators;
    }
    if |r| > 0 {
      assert s[|r| - 1] == r[|r| - 1];
    }
  }

  /** The directory path of a directory path is itself: `directory` is idempotent, even across line breaks. */
  lemma DirectoryPathIdempotent(s: string)
    ensures DirectoryPath(DirectoryPath(s)) == DirectoryPath(s)
  {
    var k := FirstLineEnd(s);
    var head := s[..k];
    var i := LastSeparatorEnd(head);
    var r := head[..i] + s[k..];
    assert r == DirectoryPath(s);
    var k2 := FirstLineEnd(r);
    forall j | 0 <= j < i
      ensures r[j] !in LineTerminators
    {
      assert r[j] == s[j];
    }
    if i < |r| {
      assert r[i] == s[k];
    }
    assert k2 == i;
    assert r[..k2] == head[..i];
    assert r[k2..] == s[k..];
  }

  /** The round trip of `getNamedPath`: the directory of a named path is the directory with its slash. */
  lemma DirectoryOfNamedPath(name: string, dir: string)
    requires SingleLine(dir)
    requires forall j :: 0 <= j < |name| ==> name[j] !in DirectorySeparators && name[j] !in LineTerminators
    ensures DirectoryPath(GetNamedPath(name, dir)) == dir + "/"
  {
    var p := GetNamedPath(name, dir);
    assert forall j :: |dir| < j < |p| ==> p[j] == name[j - |dir| - 1];
    DirectoryPathUnique(p, |dir| + 1);
    assert p[..|dir| + 1] == dir + "/";
  }

  /** The last non-empty piece, as the `pop` loop of `nameOnly` finds it. */
  function LastNonEmpty(pieces: seq<string>): (r: Option<string>)
    ensures r.None? <==> forall j :: 0 <= j < |pieces| ==> pieces[j] == ""
    ensures r.Some? ==> r.value != ""
    ensures r.Some? ==> exists j :: (0 <= j < |pieces| && pieces[j] == r.value &&
                                     forall k :: j < k < |pieces| ==> pieces[k] == "")
  {
    if |pieces| == 0 then None
    else if pieces[|pieces| - 1] != "" then Some(pieces[|pieces| - 1])
    else
      var r := LastNonEmpty(pieces[..|pieces| - 1]);
      assert forall j :: 0 <= j < |pieces| - 1 ==> pieces[j] == pieces[..|pieces| - 1][j];
      r
  }

  /** A separator splits a text into the pieces before it followed by the pieces after it. */
  lemma {:induction false} SplitConcat(x: string, c: char, b: string, cs: set<char>)
    requires c in cs
    ensures Split(x + [c] + b, cs) == Split(x, cs) + Split(b, cs)
    decreases |x|
  {
    if |x| == 0 {
      assert x + [c] + b == [c] + b;
      assert ([c] + b)[1..] == b;
    } else {
      assert (x + [c] + b)[1..] == x[1..] + [c] + b;
      SplitConcat(x[1..], c, b, cs);
    }
  }

  /** The `directory` options. */
  datatype DirectoryOptions = DirectoryOptions(skipIfDirectory: JsValue, useNative: JsValue, nameOnly: JsValue)

  /** What `lstatSync` reports: a failure (it throws), or whether the path is a directory. */
  datatype StatOutcome = StatFailed | Stat(isDirectory: bool)

  /** `options?.skipIfDirectory === true`. */
  predicate SkipIfDirectory(options: Option<DirectoryOptions>) {
    options.Some? && options.value.skipIfDirectory == Bool(true)
  }

  /** `options?.useNative === true`. */
  predicate UseNative(options: Option<DirectoryOptions>) {
    options.Some? && options.value.useNative == Bool(true)
  }

  /** `options?.nameOnly === true`. */
  predicate NameOnly(options: Option<DirectoryOptions>) {
    options.Some? && options.value.nameOnly == Bool(true)
  }

  /**
   * The part of `directory` after the `skipIfDirectory` test: Node's
   * `dirname` for `useNative`; otherwise the directory path, or for
   * `nameOnly` its last non-empty piece between platform separators, the
   * directory path itself when it has none.
   */
  function DirectoryName(dirname: string -> string, sep: char, filePath: string, options: Option<DirectoryOptions>): (r: string)
    ensures options.None? ==> r == DirectoryPath(filePath)
    ensures UseNative(options) ==> r == dirname(filePath)
    ensures !UseNative(options) && !NameOnly(options) ==> r == DirectoryPath(filePath)
    ensures !UseNative(options) && NameOnly(options) ==>
              var pieces := Split(DirectoryPath(filePath), {sep});
              (r == DirectoryPath(filePath) <==> LastNonEmpty(pieces).None? || LastNonEmpty(pieces).value == DirectoryPath(filePath)) &&
              (LastNonEmpty(pieces).Some? ==> r != "" && sep !in r && r in pieces)
    ensures !UseNative(options) && NameOnly(options) ==>
              var name := LastNonEmpty(Split(DirectoryPath(filePath), {sep}));
              (name.Some? ==> r == name.value) && (name.None? ==> r == DirectoryPath(filePath))
  {
    if UseNative(options) then dirname(filePath)
    else
      var directoryPath := DirectoryPath(filePath);
      if NameOnly(options) then
        var pieces := Split(directoryPath, {sep});
        var name := LastNonEmpty(pieces);
        if name.Some? then
          SplitPiecesHaveNoSeparator(directoryPath, {sep});
          assert forall j :: 0 <= j < |name.value| ==> name.value[j] != sep;
          name.value
        else directoryPath
      else directoryPath
  }

  /**
   * `directory(filePath, options)` of `src/tools/io.ts`: `isDirectory`
   * catches a failing `lstatSync` and reports `undefined`, so only a path
   * known to be a directory is returned unchanged under `skipIfDirectory`.
   */
  function DirectoryCatching(lstat: string -> StatOutcome, dirname: string -> string, sep: char,
                             filePath: string, options: Option<DirectoryOptions>): (r: string)
    ensures SkipIfDirectory(options) && lstat(filePath) == Stat(true) ==> r == filePath
    ensures !(SkipIfDirectory(options) && lstat(filePath) == Stat(true)) ==>
              r == DirectoryName(dirname, sep, filePath, options)
  {
    if SkipIfDirectory(options) && lstat(filePath) == Stat(true) then filePath
    else DirectoryName(dirname, sep, filePath, options)
  }

  /**
   * `directory(filePath, options)` of `src/modules/io/tools/directory.ts`:
   * there `isDirectory` lets a failing `lstatSync` throw, and `directory`'s
   * own `catch` returns the input unchanged.
   */
  function DirectoryThrowing(lstat: string -> StatOutcome, dirname: string -> string, sep: char,
                             filePath: string, options: Option<DirectoryOptions>): (r: string)
    ensures SkipIfDirectory(options) && lstat(filePath) != Stat(false) ==> r == filePath
    ensures !(SkipIfDirectory(options) && lstat(filePath) != Stat(false)) ==>
              r == DirectoryName(dirname, sep, filePath, options)
  {
    if SkipIfDirectory(options) then
      match lstat(filePath)
      case StatFailed => filePath
      case Stat(isDirectory) => if isDirectory then filePath else DirectoryName(dirname, sep, filePath, options)
    else DirectoryName(dirname, sep, filePath, options)
  }

  /** The two copies agree except when `skipIfDirectory` is set and the status lookup fails. */
  lemma DirectoryCopiesAgree(lstat: string -> StatOutcome, dirname: string -> string, sep: char,
                             filePath: string, options: Option<DirectoryOptions>)
    ensures DirectoryCatching(lstat, dirname, sep, filePath, options) == DirectoryThrowing(lstat, dirname, sep, filePath, options) ||
            (SkipIfDirectory(options) && lstat(filePath) == StatFailed)
    ensures SkipIfDirectory(options) && lstat(filePath) == StatFailed ==>
              DirectoryThrowing(lstat, dirname, sep, filePath, options) == filePath &&
              DirectoryCatching(lstat, dirname, sep, filePath, options) == DirectoryName(dirname, sep, filePath, options)
  {
  }

  /** A directory path ending in `name/` has `name` as its last non-empty piece. */
  lemma LastPieceOfDirectory(dir: string, name: string)
    requires name != "" && '/' !in name
    ensures LastNonEmpty(Split(dir + "/" + name + "/", {'/'})) == Some(name)
  {
    var d := dir + "/" + name + "/";
    assert d == dir + ['/'] + (name + ['/'] + "");
    SplitConcat(dir, '/', name + ['/'] + "", {'/'});
    SplitConcat(name, '/', "", {'/'});
    SplitWithoutSeparator(name, {'/'});
    var pieces := Split(d, {'/'});
    assert pieces == Split(dir, {'/'}) + [name] + [""];
    assert pieces[..|pieces| - 1] == Split(dir, {'/'}) + [name];
  }

  /**
   * With `nameOnly`, the name of the directory holding a file is reported:
   * `dir/name/file` gives `name`, for the separator `/`.
   */
  lemma NameOnlyOfFile(dirname: string -> string, dir: string, name: string, file: string)
    requires SingleLine(dir)
    requires name != ""
    requires forall j :: 0 <= j < |name| ==> name[j] !in DirectorySeparators && name[j] !in LineTerminators
    requires forall j :: 0 <= j < |file| ==> file[j] !in DirectorySeparators && file[j] !in LineTerminators
    ensures DirectoryName(dirname, '/', GetNamedPath(file, GetNamedPath(name, dir)), Some(DirectoryOptions(Undefined, Undefined, Bool(true))))
         == name
  {
    var parent := GetNamedPath(name, dir);
    assert SingleLine(parent) by {
      assert forall j :: |dir| < j < |parent| ==> parent[j] == name[j - |dir| - 1];
    }
    DirectoryOfNamedPath(file, parent);
    assert '/' !in name by {
      assert forall j :: 0 <= j < |name| ==> name[j] != '/';
    }
    LastPieceOfDirectory(dir, name);
  }
}
