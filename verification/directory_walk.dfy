/**
 * The recursive walk of `getDirectoryFiles`, in `src/tools/io.ts` and its
 * copy in `src/tools/io/directory.helper.ts`, over an abstract file tree.
 * Each directory is listed in order; a subdirectory is walked completely
 * (the recursion is awaited) before the next entry; a file is read and
 * recorded with its full path. Reading a file is a function parameter; a
 * failed read is caught and the file skipped.
 */
module DirectoryWalk {
  import opened Js
  import Directory

  /** A directory entry: a file, a readable directory with its listing, or a directory `readdir` fails on. */
  datatype Node = File(name: string) | Dir(name: string, entries: seq<Node>) | Unreadable(name: string)

  /** The contents of a file. */
  type Bytes = seq<bv8>

  /** One collected file: its entry name, its full path and its contents. */
  datatype FileRecord = FileRecord(name: string, fullPath: string, buffer: Bytes)

  /** Reading a file: its contents, or `None` when `readFile` fails. */
  type Read = string -> Option<Bytes>

  /**
   * `_maxLevel && cursor >= _maxLevel`: a missing or zero `maxLevel` never
   * stops the walk; otherwise a directory at depth `maxLevel` or deeper is
   * not read.
   */
  predicate Limited(maxLevel: Option<int>, depth: nat) {
    maxLevel.Some? && maxLevel.value != 0 && depth >= maxLevel.value
  }

  /** The record of the file `name` in the directory `path`, when it can be read. */
  function FileRecords(name: string, path: string, read: Read): (records: seq<FileRecord>)
    ensures |records| <= 1
    ensures records != [] <==> read(Directory.GetNamedPath(name, path)).Some?
    ensures records != [] ==> records[0] == FileRecord(name, Directory.GetNamedPath(name, path), read(Directory.GetNamedPath(name, path)).value)
  {
    var filePath := Directory.GetNamedPath(name, path);
    var buffer := read(filePath);
    if buffer.Some? then [FileRecord(name, filePath, buffer.value)] else []
  }

  // ------------------------------------------------------------ as written

  /**
   * `get(fullPath, cursor)` as written: `None` when the promise never
   * settles. A `readdir` error only logs and returns from the callback, so
   * the promise `get` returned is never resolved and every `await` on it,
   * up to the root, waits forever.
   */
  function GetAsWritten(n: Node, path: string, depth: nat, maxLevel: Option<int>, read: Read): (r: Option<seq<FileRecord>>)
    decreases n
  {
    if Limited(maxLevel, depth) then Some([])
    else match n
      case Dir(_, entries) => EntriesAsWritten(entries, path, depth, maxLevel, read)
      case _ => None
  }

  /** The loop over one directory listing, as written. */
  function EntriesAsWritten(entries: seq<Node>, path: string, depth: nat, maxLevel: Option<int>, read: Read): (r: Option<seq<FileRecord>>)
    decreases entries
  {
    if |entries| == 0 then Some([])
    else
      var head := if entries[0].File? then Some(FileRecords(entries[0].name, path, read))
                  else GetAsWritten(entries[0], Directory.GetNamedPath(entries[0].name, path), depth + 1, maxLevel, read);
      if head.None? then None
      else
        var rest := EntriesAsWritten(entries[1..], path, depth, maxLevel, read);
        if rest.None? then None else Some(head.value + rest.value)
  }

  /** `getDirectoryFiles(root, options)` as written; `None` when its promise never settles. */
  function GetDirectoryFilesAsWritten(tree: Node, root: string, maxLevel: Option<int>, read: Read): (r: Option<seq<FileRecord>>)
    ensures Limited(maxLevel, 0) ==> r == Some([])
    ensures !Limited(maxLevel, 0) && !tree.Dir? ==> r.None?
  {
    GetAsWritten(tree, root, 0, maxLevel, read)
  }

  /** A directory that cannot be listed, anywhere within the depth limit, stops the whole walk from settling. */
  lemma UnreadableSubdirectoryHangsAsWritten(root: string, read: Read)
    ensures GetDirectoryFilesAsWritten(Dir("", [Unreadable("locked"), File("a.txt")]), root, None, read).None?
    ensures GetDirectoryFiles(Dir("", [Unreadable("locked"), File("a.txt")]), root, None, read)
         == FileRecords("a.txt", root, read)
  {
    var es := [Unreadable("locked"), File("a.txt")];
    assert es[1..] == [File("a.txt")];
    assert es[1..][1..] == [];
    assert FileRecords("a.txt", root, read) + [] == FileRecords("a.txt", root, read);
  }

  // -------------------------------------------------------------- corrected

  /** `fullPath` is `getNamedPath(name, d)` for the directory path `d` in front of it. */
  predicate Named(rec: FileRecord) {
    |rec.name| < |rec.fullPath| &&
    rec.fullPath == Directory.GetNamedPath(rec.name, rec.fullPath[..|rec.fullPath| - |rec.name| - 1])
  }

  /** The record lies below the directory `path`. */
  predicate Under(rec: FileRecord, path: string) {
    |path| < |rec.fullPath| && rec.fullPath[..|path| + 1] == path + "/"
  }

  /** What a collected record promises: its full path is named below `path`, and its buffer is that file's contents. */
  predicate Collected(rec: FileRecord, path: string, read: Read) {
    Named(rec) && Under(rec, path) && read(rec.fullPath) == Some(rec.buffer)
  }

  /** Below a subdirectory of `path` is below `path`. */
  lemma UnderParent(rec: FileRecord, name: string, path: string)
    requires Under(rec, Directory.GetNamedPath(name, path))
    ensures Under(rec, path)
  {
    var sub := Directory.GetNamedPath(name, path);
    assert rec.fullPath[..|path| + 1] == rec.fullPath[..|sub| + 1][..|path| + 1];
    assert sub[..|path| + 1] == path + "/";
  }

  /**
   * `get(fullPath, cursor)` with a `readdir` error settling the directory's
   * promise with nothing collected, so the walk goes on with the next entry.
   */
  function Get(n: Node, path: string, depth: nat, maxLevel: Option<int>, read: Read): (r: seq<FileRecord>)
    ensures forall rec :: rec in r ==> Collected(rec, path, read)
    decreases n
  {
    if Limited(maxLevel, depth) then []
    else match n
      case Dir(_, entries) => Entries(entries, path, depth, maxLevel, read)
      case _ => []
  }

  /** The loop over one directory listing: each entry in turn, a subdirectory walked completely first. */
  function Entries(entries: seq<Node>, path: string, depth: nat, maxLevel: Option<int>, read: Read): (r: seq<FileRecord>)
    ensures forall rec :: rec in r ==> Collected(rec, path, read)
    decreases entries
  {
    if |entries| == 0 then []
    else
      var head := if entries[0].File? then FileRecords(entries[0].name, path, read)
                  else Get(entries[0], Directory.GetNamedPath(entries[0].name, path), depth + 1, maxLevel, read);
      assert forall rec :: rec in head ==> Collected(rec, path, read) by {
        forall rec | rec in head
          ensures Collected(rec, path, read)
        {
          if entries[0].File? {
            var p := Directory.GetNamedPath(entries[0].name, path);
            assert rec.fullPath == p && rec.name == entries[0].name;
            assert p[..|p| - |rec.name| - 1] == path;
            assert p[..|path| + 1] == path + "/";
          } else {
            UnderParent(rec, entries[0].name, path);
          }
        }
      }
      head + Entries(entries[1..], path, depth, maxLevel, read)
  }

  /** `getDirectoryFiles(root, options)`: the files collected from the root at depth 0. */
  function GetDirectoryFiles(tree: Node, root: string, maxLevel: Option<int>, read: Read): (files: seq<FileRecord>)
    ensures forall rec :: rec in files ==> Collected(rec, root, read)
    ensures Limited(maxLevel, 0) || !tree.Dir? ==> files == []
  {
    Get(tree, root, 0, maxLevel, read)
  }

  // ---------------------------------------------------------- completeness

  /**
   * Reference reachability: the directory `n` at `path` and `depth` is read
   * (its depth is within the limit and it can be listed), and the file
   * `name` with full path `fullPath` is listed in it or in a subdirectory
   * that is reachable in turn.
   */
  predicate Reaches(n: Node, path: string, depth: nat, maxLevel: Option<int>, name: string, fullPath: string)
    decreases n
  {
    !Limited(maxLevel, depth) && n.Dir? && ReachesIn(n.entries, path, depth, maxLevel, name, fullPath)
  }

  /** Some entry of a listing at `path` is the file, or a subdirectory it is reachable from. */
  predicate ReachesIn(entries: seq<Node>, path: string, depth: nat, maxLevel: Option<int>, name: string, fullPath: string)
    decreases entries
  {
    |entries| > 0 &&
    ((entries[0].File? && entries[0].name == name && fullPath == Directory.GetNamedPath(name, path)) ||
     (!entries[0].File? && Reaches(entries[0], Directory.GetNamedPath(entries[0].name, path), depth + 1, maxLevel, name, fullPath)) ||
     ReachesIn(entries[1..], path, depth, maxLevel, name, fullPath))
  }

  /**
   * The walk collects exactly the readable reachable files: a record is
   * collected if and only if its file is reachable within the depth limit
   * through directories that can be listed, and its buffer is what reading
   * that file gives.
   */
  lemma {:induction false} GetMembers(n: Node, path: string, depth: nat, maxLevel: Option<int>, read: Read, rec: FileRecord)
    ensures rec in Get(n, path, depth, maxLevel, read)
        <==> Reaches(n, path, depth, maxLevel, rec.name, rec.fullPath) && read(rec.fullPath) == Some(rec.buffer)
    decreases n
  {
    if !Limited(maxLevel, depth) && n.Dir? {
      EntriesMembers(n.entries, path, depth, maxLevel, read, rec);
    }
  }

  /** The same characterisation for one listing. */
  lemma {:induction false} EntriesMembers(entries: seq<Node>, path: string, depth: nat, maxLevel: Option<int>, read: Read,
                                          rec: FileRecord)
    ensures rec in Entries(entries, path, depth, maxLevel, read)
        <==> ReachesIn(entries, path, depth, maxLevel, rec.name, rec.fullPath) && read(rec.fullPath) == Some(rec.buffer)
    decreases entries
  {
    if |entries| > 0 {
      var e := entries[0];
      var sub := Directory.GetNamedPath(e.name, path);
      if !e.File? {
        GetMembers(e, sub, depth + 1, maxLevel, read, rec);
      }
      EntriesMembers(entries[1..], path, depth, maxLevel, read, rec);
      var head := if e.File? then FileRecords(e.name, path, read) else Get(e, sub, depth + 1, maxLevel, read);
      assert Entries(entries, path, depth, maxLevel, read) == head + Entries(entries[1..], path, depth, maxLevel, read);
    }
  }

  /**
   * `getDirectoryFiles` misses nothing and invents nothing: a record is in
   * the result exactly when its file is reachable from the root within
   * `maxLevel` and reading it gives the record's buffer.
   */
  lemma GetDirectoryFilesExactly(tree: Node, root: string, maxLevel: Option<int>, read: Read, rec: FileRecord)
    ensures rec in GetDirectoryFiles(tree, root, maxLevel, read)
        <==> Reaches(tree, root, 0, maxLevel, rec.name, rec.fullPath) && read(rec.fullPath) == Some(rec.buffer)
  {
    GetMembers(tree, root, 0, maxLevel, read, rec);
  }

  // ------------------------------------------------------------- agreement

  /** Every directory the walk reaches within the depth limit can be listed. */
  predicate Settles(n: Node, depth: nat, maxLevel: Option<int>)
    decreases n
  {
    Limited(maxLevel, depth) || (n.Dir? && EntriesSettle(n.entries, depth, maxLevel))
  }

  /** Every subdirectory of a listing at `depth` settles. */
  predicate EntriesSettle(entries: seq<Node>, depth: nat, maxLevel: Option<int>)
    decreases entries
  {
    |entries| == 0 ||
    ((entries[0].File? || Settles(entries[0], depth + 1, maxLevel)) && EntriesSettle(entries[1..], depth, maxLevel))
  }

  /**
   * The walk as written settles exactly when no directory within the depth
   * limit fails to list, and then collects what the corrected walk does.
   */
  lemma {:induction false} GetAsWrittenAgrees(n: Node, path: string, depth: nat, maxLevel: Option<int>, read: Read)
    ensures GetAsWritten(n, path, depth, maxLevel, read)
         == (if Settles(n, depth, maxLevel) then Some(Get(n, path, depth, maxLevel, read)) else None)
    decreases n
  {
    if !Limited(maxLevel, depth) && n.Dir? {
      EntriesAsWrittenAgrees(n.entries, path, depth, maxLevel, read);
    }
  }

  /** The same agreement for one listing. */
  lemma {:induction false} EntriesAsWrittenAgrees(entries: seq<Node>, path: string, depth: nat, maxLevel: Option<int>, read: Read)
    ensures EntriesAsWritten(entries, path, depth, maxLevel, read)
         == (if EntriesSettle(entries, depth, maxLevel) then Some(Entries(entries, path, depth, maxLevel, read)) else None)
    decreases entries
  {
    if |entries| > 0 {
      if !entries[0].File? {
        GetAsWrittenAgrees(entries[0], Directory.GetNamedPath(entries[0].name, path), depth + 1, maxLevel, read);
      }
      EntriesAsWrittenAgrees(entries[1..], path, depth, maxLevel, read);
    }
  }

  // ------------------------------------------------------------ properties

  /** Depth-first order: the files of two consecutive runs of entries come out one run after the other. */
  lemma {:induction false} EntriesConcat(a: seq<Node>, b: seq<Node>, path: string, depth: nat, maxLevel: Option<int>, read: Read)
    ensures Entries(a + b, path, depth, maxLevel, read)
         == Entries(a, path, depth, maxLevel, read) + Entries(b, path, depth, maxLevel, read)
    decreases |a|
  {
    if |a| == 0 {
      assert a + b == b;
    } else {
      assert (a + b)[0] == a[0];
      assert (a + b)[1..] == a[1..] + b;
      EntriesConcat(a[1..], b, path, depth, maxLevel, read);
    }
  }

  /** A negative `maxLevel` is truthy and already exceeded at the root: nothing is collected. */
  lemma NegativeMaxLevelCollectsNothing(tree: Node, root: string, m: int, read: Read)
    requires m < 0
    ensures GetDirectoryFiles(tree, root, Some(m), read) == []
    ensures GetDirectoryFilesAsWritten(tree, root, Some(m), read) == Some([])
  {
  }

  /** A `maxLevel` of zero is falsy: it walks as deep as no limit at all. */
  lemma {:induction false} ZeroMaxLevelIsUnlimited(n: Node, path: string, depth: nat, read: Read)
    ensures Get(n, path, depth, Some(0), read) == Get(n, path, depth, None, read)
    decreases n
  {
    if n.Dir? {
      ZeroMaxLevelEntries(n.entries, path, depth, read);
    }
  }

  /** The same for one listing. */
  lemma {:induction false} ZeroMaxLevelEntries(entries: seq<Node>, path: string, depth: nat, read: Read)
    ensures Entries(entries, path, depth, Some(0), read) == Entries(entries, path, depth, None, read)
    decreases entries
  {
    if |entries| > 0 {
      if !entries[0].File? {
        ZeroMaxLevelIsUnlimited(entries[0], Directory.GetNamedPath(entries[0].name, path), depth + 1, read);
      }
      ZeroMaxLevelEntries(entries[1..], path, depth, read);
    }
  }

  /** The readable files listed directly in a directory, in listing order. */
  function OwnFiles(entries: seq<Node>, path: string, read: Read): (files: seq<FileRecord>)
    ensures forall rec :: rec in files ==> rec.fullPath == Directory.GetNamedPath(rec.name, path)
    decreases entries
  {
    if |entries| == 0 then []
    else (if entries[0].File? then FileRecords(entries[0].name, path, read) else []) + OwnFiles(entries[1..], path, read)
  }

  /** With `maxLevel` 1 only the root is listed: its own readable files are collected and no subdirectory is read. */
  lemma {:induction false} MaxLevelOneReadsRootOnly(entries: seq<Node>, root: string, read: Read)
    ensures Entries(entries, root, 0, Some(1), read) == OwnFiles(entries, root, read)
    decreases entries
  {
    if |entries| > 0 {
      MaxLevelOneReadsRootOnly(entries[1..], root, read);
    }
  }
}
