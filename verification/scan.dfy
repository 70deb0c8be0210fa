/**
 * The two `whereIs` system searches, `src/modules/system/tools/linux.scan.ts`
 * and `src/modules/system/tools/windows.scan.ts`: the command line each
 * runs, how the command's outcome becomes the promised value, and what the
 * listed paths look like. Running the command is a function parameter from
 * the command line to its outcome; the provider's path resolver and the
 * file-status lookup are parameters too.
 */
module SystemScan {
  import opened Js
  import opened Strings
  import opened ScanBuilder
  import TextUtilities

  /** `LINUX_OBJECT_SCAN_COMMAND`. */
  const FindCommand: string := "find"

  /** `LINUX_OBJECT_WHERE_COMMAND`. */
  const WhereisCommand: string := "whereis"

  /** `WINDOWS_OBJECT_SCAN_COMMAND`. */
  const WhereCommand: string := "WHERE"

  /** What `exec` reports: whether it failed, and the two output streams. */
  datatype ExecOutcome = ExecOutcome(failed: bool, stdout: string, stderr: string)

  /** The command runner: the outcome of running a shell command line. */
  type Exec = string -> ExecOutcome

  /**
   * How the promise settles: rejected by an exception thrown in its
   * executor, or resolved with a response map or with nothing (`null` on
   * Linux, `undefined` on Windows).
   */
  datatype ScanResult = Rejected | Resolved(response: Option<map<string, seq<string>>>)

  // ------------------------------------------------------------------ Linux

  /** The Linux command line: `whereis` for an application search, `find` otherwise, with errors discarded. */
  function LinuxCommandLine(resolve: string -> string, options: SearchOptions): (line: string)
    ensures var flags := BuildLinuxSearchOptions(resolve, SearchTerms(Some(options)), Some(options));
            line == (if options.scope == Some(ApplicationScope) then WhereisCommand else FindCommand)
                    + " " + flags[0] + " 2>/dev/null"
  {
    var command := if options.scope == Some(ApplicationScope) then WhereisCommand else FindCommand;
    var flags := BuildLinuxSearchOptions(resolve, SearchTerms(Some(options)), Some(options));
    command + " " + Join(flags, " ") + " 2>/dev/null"
  }

  /** The output lines of `whereis` / `find`: every space and line break separates two lines. */
  function LinuxOutputLines(stdout: string): (lines: seq<string>)
    ensures forall i :: 0 <= i < |lines| ==> ' ' !in lines[i] && '\n' !in lines[i] && '\r' !in lines[i]
  {
    var lines := TextUtilities.SplitNewline(Some(TextUtilities.ReplaceSpacesForNewline(Some(stdout))));
    assert forall i :: 0 <= i < |lines| ==> ' ' !in lines[i] by {
      var text := TextUtilities.ReplaceSpacesForNewline(Some(stdout));
      JoinSplitIsReplace(text, TextUtilities.NewlineChars, "\n");
      forall i | 0 <= i < |lines|
        ensures ' ' !in lines[i]
      {
        SplitPieceInText(text, TextUtilities.NewlineChars, i, ' ');
      }
    }
    lines
  }

  /** A character missing from a text is missing from each of its pieces. */
  lemma {:induction false} SplitPieceInText(s: string, cs: set<char>, i: int, c: char)
    requires c !in s
    requires 0 <= i < |Split(s, cs)|
    ensures c !in Split(s, cs)[i]
    decreases |s|
  {
    if |s| > 0 {
      assert forall x :: x in s[1..] ==> x in s;
      var rest := Split(s[1..], cs);
      if s[0] in cs {
        if i > 0 {
          SplitPieceInText(s[1..], cs, i - 1, c);
        }
      } else {
        if i == 0 {
          SplitPieceInText(s[1..], cs, 0, c);
        } else {
          SplitPieceInText(s[1..], cs, i, c);
        }
      }
    }
  }

  /**
   * The Linux `whereIs(provider, options)`. Reading `options.scope` without
   * an options object throws, which rejects the promise before any command
   * runs. Output on `stderr`, or no output at all, resolves `null`;
   * otherwise the output's words are grouped by search term.
   */
  function LinuxWhereIs(resolve: string -> string, stat: Stat, exec: Exec, options: Option<SearchOptions>): (r: ScanResult)
    ensures options.None? <==> r.Rejected?
    ensures options.Some? ==>
              var outcome := exec(LinuxCommandLine(resolve, options.value));
              (r == Resolved(None) <==> outcome.stderr != "" || outcome.stdout == "")
    ensures r.Resolved? && r.response.Some? ==>
              r.response.value == BuildSearchResponse(stat, LinuxOutputLines(exec(LinuxCommandLine(resolve, options.value)).stdout),
                                                      SearchTerms(options), options.value.scope)
  {
    if options.None? then Rejected
    else
      var outcome := exec(LinuxCommandLine(resolve, options.value));
      if outcome.stderr != "" || outcome.stdout == "" then Resolved(None)
      else Resolved(Some(BuildSearchResponse(stat, LinuxOutputLines(outcome.stdout), SearchTerms(options), options.value.scope)))
  }

  /**
   * Every path the Linux search lists is a single word: it holds no space,
   * no colon (the `whereis` label is dropped) and no backslash.
   */
  lemma LinuxPathsAreWords(resolve: string -> string, stat: Stat, exec: Exec, options: Option<SearchOptions>, key: string)
    requires LinuxWhereIs(resolve, stat, exec, options).Resolved?
    requires LinuxWhereIs(resolve, stat, exec, options).response.Some?
    requires key in LinuxWhereIs(resolve, stat, exec, options).response.value
    ensures forall p :: p in LinuxWhereIs(resolve, stat, exec, options).response.value[key] ==>
              ' ' !in p && ':' !in p && '\\' !in p
  {
    var lines := LinuxOutputLines(exec(LinuxCommandLine(resolve, options.value)).stdout);
    var keys := SearchTerms(options);
    var scope := options.value.scope;
    BuildSearchResponseGroups(stat, lines, keys, scope, key);
    FiledUnderFromLines(stat, lines, keys, scope, key);
    forall p | p in FiledUnder(stat, lines, keys, scope, key)
      ensures ' ' !in p && ':' !in p && '\\' !in p
    {
      var i :| 0 <= i < |lines| && IsValidPath(stat, lines[i], scope) && p == CleanPath(lines[i]);
      CleanPathKeepsAbsence(lines[i], ' ');
      ContainsChar(lines[i], ':');
      CleanPathKeepsAbsence(lines[i], ':');
    }
  }

  // ---------------------------------------------------------------- Windows

  /** The Windows command line: `WHERE` and the single `/R` argument. */
  function WindowsCommandLine(resolve: string -> string, options: Option<SearchOptions>): (line: string)
    ensures line == WhereCommand + " " + BuildWindowsSearchOptions(resolve, SearchTerms(options), options)[0]
  {
    WhereCommand + " " + Join(BuildWindowsSearchOptions(resolve, SearchTerms(options), options), " ")
  }

  /**
   * The Windows `whereIs(provider, options)`. The command starts in every
   * case; reading `options.abort` without an options object then throws and
   * rejects the promise. A failure or any `stderr` output resolves
   * `undefined`; otherwise the output lines are grouped by search term.
   */
  function WindowsWhereIs(resolve: string -> string, stat: Stat, exec: Exec, options: Option<SearchOptions>): (r: ScanResult)
    ensures options.None? <==> r.Rejected?
    ensures options.Some? ==>
              var outcome := exec(WindowsCommandLine(resolve, options));
              (r == Resolved(None) <==> outcome.failed || outcome.stderr != "")
    ensures r.Resolved? && r.response.Some? ==>
              r.response.value == BuildSearchResponse(stat, TextUtilities.SplitNewline(Some(exec(WindowsCommandLine(resolve, options)).stdout)),
                                                      SearchTerms(options), options.value.scope)
  {
    var outcome := exec(WindowsCommandLine(resolve, options));
    if options.None? then Rejected
    else if outcome.failed || outcome.stderr != "" then Resolved(None)
    else Resolved(Some(BuildSearchResponse(stat, TextUtilities.SplitNewline(Some(outcome.stdout)), SearchTerms(options), options.value.scope)))
  }

  /**
   * Every path the Windows search lists uses forward slashes and holds no
   * colon, so a drive-qualified `C:\...` line of `WHERE` is never listed.
   */
  lemma WindowsPathsHaveNoColon(resolve: string -> string, stat: Stat, exec: Exec, options: Option<SearchOptions>, key: string)
    requires WindowsWhereIs(resolve, stat, exec, options).Resolved?
    requires WindowsWhereIs(resolve, stat, exec, options).response.Some?
    requires key in WindowsWhereIs(resolve, stat, exec, options).response.value
    ensures forall p :: p in WindowsWhereIs(resolve, stat, exec, options).response.value[key] ==>
              ':' !in p && '\\' !in p && '\r' !in p && '\n' !in p
  {
    var lines := TextUtilities.SplitNewline(Some(exec(WindowsCommandLine(resolve, options)).stdout));
    var keys := SearchTerms(options);
    var scope := options.value.scope;
    BuildSearchResponseGroups(stat, lines, keys, scope, key);
    FiledUnderFromLines(stat, lines, keys, scope, key);
    forall p | p in FiledUnder(stat, lines, keys, scope, key)
      ensures ':' !in p && '\\' !in p && '\r' !in p && '\n' !in p
    {
      var i :| 0 <= i < |lines| && IsValidPath(stat, lines[i], scope) && p == CleanPath(lines[i]);
      ContainsChar(lines[i], ':');
      CleanPathKeepsAbsence(lines[i], ':');
      assert '\r' !in lines[i] && '\n' !in lines[i];
      CleanPathKeepsAbsence(lines[i], '\r');
      CleanPathKeepsAbsence(lines[i], '\n');
    }
  }
}
