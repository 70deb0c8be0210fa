/**
 * Path helpers of `src/modules/system/tools/path.ts`: recognising a path,
 * resolving it, and wrapping space-containing path segments in double
 * quotes for the Windows shell. Node's `isAbsolute` and `resolve` are host
 * behaviour and arrive as the total functions of a `PathHost`.
 */
module PathTools {
  import opened Js
  import opened Strings

  /** Node's path primitives the source calls: `isAbsolute(p)` and `resolve(__dirname, p)`. */
  datatype PathHost = PathHost(isAbsolute: string -> bool, resolveRelative: string -> string)

  /** `isPath(v)`: a string containing a forward or a backward slash. */
  predicate IsPath(v: JsValue) {
    v.Str? && ('/' in v.s || '\\' in v.s)
  }

  /** `isPath` holds iff the argument is a string with `/` or `\` in it, per `indexOf`. */
  lemma IsPathIffSeparator(v: JsValue)
    ensures IsPath(v) <==> v.Str? && (Contains(v.s, "/") || Contains(v.s, "\\"))
  {
    if v.Str? {
      ContainsChar(v.s, '/');
      ContainsChar(v.s, '\\');
    }
  }

  /** `isAbsolute(path) ? path : resolve(__dirname, path)`. */
  function Resolved(host: PathHost, path: string): (r: string)
    ensures host.isAbsolute(path) ==> r == path
    ensures !host.isAbsolute(path) ==> r == host.resolveRelative(path)
  {
    if host.isAbsolute(path) then path else host.resolveRelative(path)
  }

  /**
   * `resolvePath(path, quoteOnlySpaces)` as written: a string that is not a
   * path is returned as it is; an absolute path is kept, a relative one is
   * resolved against the module directory; with `quoteOnlySpaces` the result
   * then goes through the quoting loop as written.
   */
  function ResolvePathAsWritten(host: PathHost, path: string, quoteOnlySpaces: bool): (r: string)
    ensures !IsPath(Str(path)) ==> r == path
    ensures IsPath(Str(path)) && !quoteOnlySpaces ==> r == Resolved(host, path)
    ensures IsPath(Str(path)) && quoteOnlySpaces ==>
              r == ResolveSpacedPathAsWritten(Resolved(host, path)) &&
              RemoveChar(r, '"') == RemoveChar(Resolved(host, path), '"') && |r| >= |Resolved(host, path)|
  {
    if !IsPath(Str(path)) then path
    else if quoteOnlySpaces then ResolveSpacedPathAsWritten(Resolved(host, path))
    else Resolved(host, path)
  }

  /**
   * `resolvePath` with the corrected quoting: the same cases, and with
   * `quoteOnlySpaces` every spaced segment of the resolved path quoted once,
   * in place.
   */
  function ResolvePath(host: PathHost, path: string, quoteOnlySpaces: bool): (r: string)
    ensures !IsPath(Str(path)) ==> r == path
    ensures IsPath(Str(path)) && !quoteOnlySpaces ==> r == Resolved(host, path)
    ensures IsPath(Str(path)) && quoteOnlySpaces ==>
              r == ResolveSpacedPath(Resolved(host, path)) &&
              RemoveChar(r, '"') == RemoveChar(Resolved(host, path), '"') && |r| >= |Resolved(host, path)|
  {
    if !IsPath(Str(path)) then path
    else if quoteOnlySpaces then ResolveSpacedPath(Resolved(host, path))
    else Resolved(host, path)
  }

  /**
   * The two differ only in the quoting step: without `quoteOnlySpaces`, or
   * on a resolved path where the two quotings agree, they give the same
   * result.
   */
  lemma ResolvePathDiffersOnlyInQuoting(host: PathHost, path: string, quoteOnlySpaces: bool)
    ensures !quoteOnlySpaces ==> ResolvePathAsWritten(host, path, false) == ResolvePath(host, path, false)
    ensures ResolveSpacedPathAsWritten(Resolved(host, path)) == ResolveSpacedPath(Resolved(host, path)) ==>
              ResolvePathAsWritten(host, path, quoteOnlySpaces) == ResolvePath(host, path, quoteOnlySpaces)
  {
  }

  // ------------------------------------------ the /[\(\)a-zA-Z0-9_]+( [\(\)a-zA-Z0-9_]+)+/g matcher

  /** A character of the class `[\(\)a-zA-Z0-9_]`. */
  predicate IsWordChar(c: char) {
    c == '(' || c == ')' || ('a' <= c <= 'z') || ('A' <= c <= 'Z') || ('0' <= c <= '9') || c == '_'
  }

  /** End of the longest run of word characters starting at `i`. */
  function RunEnd(s: string, i: nat): (e: nat)
    requires i <= |s|
    ensures i <= e <= |s|
    ensures forall k :: i <= k < e ==> IsWordChar(s[k])
    ensures e < |s| ==> !IsWordChar(s[e])
    decreases |s| - i
  {
    if i < |s| && IsWordChar(s[i]) then RunEnd(s, i + 1) else i
  }

  /** End of the greedy `( [word]+)+` repetition starting at `e`. */
  function GroupsEnd(s: string, e: nat): (k: nat)
    requires e <= |s|
    ensures e <= k <= |s|
    ensures k > e ==> s[e] == ' '
    ensures k > e ==> k == |s| || !IsWordChar(s[k])
    decreases |s| - e
  {
    if e + 1 < |s| && s[e] == ' ' && IsWordChar(s[e + 1]) then GroupsEnd(s, RunEnd(s, e + 1))
    else e
  }

  /** The end of the match of the pattern at position `i`, if the pattern matches there. */
  function MatchAt(s: string, i: nat): (m: Option<nat>)
    requires i <= |s|
    ensures m.Some? ==> i < m.value <= |s| && ' ' in s[i..m.value] && ' ' in s
    ensures m.Some? ==> m.value == |s| || !IsWordChar(s[m.value])
    ensures m.Some? ==> i < |s| && IsWordChar(s[i])
  {
    var e := RunEnd(s, i);
    if e == i then None
    else
      var k := GroupsEnd(s, e);
      if k == e then None
      else
        assert s[i..k][e - i] == s[e] && s[e] in s;
        Some(k)
  }

  /** All matches of the global pattern from position `i` on, as `String.prototype.match` lists them. */
  function Matches(s: string, i: nat): (ms: seq<string>)
    requires i <= |s|
    ensures forall j :: 0 <= j < |ms| ==> ' ' in ms[j]
    decreases |s| - i
  {
    if i == |s| then []
    else
      match MatchAt(s, i)
      case Some(k) => [s[i..k]] + Matches(s, k)
      case None => Matches(s, i + 1)
  }

  /** Without a space the pattern never matches. */
  lemma {:induction false} NoSpaceNoMatches(s: string, i: nat)
    requires i <= |s|
    requires ' ' !in s
    ensures Matches(s, i) == []
    decreases |s| - i
  {
    if i < |s| {
      NoSpaceNoMatches(s, i + 1);
    }
  }

  /** Replacing a quote-free-equivalent middle part keeps the quote-free text of the whole. */
  lemma RemoveQuotesMiddle(a: string, x: string, y: string, b: string)
    requires RemoveChar(x, '"') == RemoveChar(y, '"')
    ensures RemoveChar(a + x + b, '"') == RemoveChar(a + y + b, '"')
  {
    RemoveCharConcat(a + x, b, '"');
    RemoveCharConcat(a, x, '"');
    RemoveCharConcat(a + y, b, '"');
    RemoveCharConcat(a, y, '"');
  }

  /** Wrapping a text in quotes adds nothing but quotes. */
  lemma RemoveQuotesWrap(m: string)
    ensures RemoveChar("\"" + m + "\"", '"') == RemoveChar(m, '"')
  {
    RemoveCharConcat("\"" + m, "\"", '"');
    RemoveCharConcat("\"", m, '"');
    assert RemoveChar("\"", '"') == "";
  }

  // ------------------------------------------------------------- as written

  /** The source's loop: each match text replaces its FIRST occurrence in the growing string. */
  function QuoteEachFirstOccurrence(local: string, spaces: seq<string>): (r: string)
    ensures RemoveChar(r, '"') == RemoveChar(local, '"')
    ensures |local| <= |r| <= |local| + 2 * |spaces|
    decreases |spaces|
  {
    if |spaces| == 0 then local
    else
      var next := ReplaceFirst(local, spaces[0], "\"" + spaces[0] + "\"");
      ReplaceFirstQuotes(local, spaces[0]);
      QuoteEachFirstOccurrence(next, spaces[1..])
  }

  /** Quoting the first occurrence of a text only adds two quote characters. */
  lemma ReplaceFirstQuotes(s: string, sub: string)
    ensures RemoveChar(ReplaceFirst(s, sub, "\"" + sub + "\""), '"') == RemoveChar(s, '"')
    ensures |ReplaceFirst(s, sub, "\"" + sub + "\"")| in {|s|, |s| + 2}
  {
    match IndexOf(s, sub)
    case None =>
    case Some(i) =>
      assert s == s[..i] + sub + s[i + |sub|..];
      RemoveQuotesWrap(sub);
      RemoveQuotesMiddle(s[..i], "\"" + sub + "\"", sub, s[i + |sub|..]);
  }

  /**
   * `resolveSpacedPath(path)` exactly as written: the matches are collected
   * first, then each one is quoted with `local.replace(space, ...)`, which
   * finds the first occurrence of the match text in the string built so far.
   */
  function ResolveSpacedPathAsWritten(path: string): (r: string)
    ensures RemoveChar(r, '"') == RemoveChar(path, '"')
    ensures |r| >= |path|
    ensures ' ' !in path ==> r == path
  {
    if ' ' !in path then NoSpaceNoMatches(path, 0); QuoteEachFirstOccurrence(path, Matches(path, 0))
    else QuoteEachFirstOccurrence(path, Matches(path, 0))
  }

  /** Two rounds of the source's loop. */
  lemma QuoteEachTwo(local: string, a: string, b: string)
    ensures QuoteEachFirstOccurrence(local, [a, b])
         == ReplaceFirst(ReplaceFirst(local, a, "\"" + a + "\""), b, "\"" + b + "\"")
  {
    assert [a, b][0] == a && [a, b][1..] == [b] && [b][1..] == [];
    var once := ReplaceFirst(local, a, "\"" + a + "\"");
    var twice := ReplaceFirst(once, b, "\"" + b + "\"");
    assert QuoteEachFirstOccurrence(local, [a, b]) == QuoteEachFirstOccurrence(once, [b]);
    assert QuoteEachFirstOccurrence(once, [b]) == QuoteEachFirstOccurrence(twice, []);
  }

  /** The matcher finds the two spaced segments of `a b/a b`. */
  lemma RepeatedSegmentMatches()
    ensures Matches("a b/a b", 0) == ["a b", "a b"]
  {
    var s := "a b/a b";
    assert RunEnd(s, 7) == 7;
    assert RunEnd(s, 6) == 7;
    assert RunEnd(s, 4) == 5;
    assert GroupsEnd(s, 7) == 7;
    assert GroupsEnd(s, 5) == 7;
    assert MatchAt(s, 4) == Some(7);
    assert RunEnd(s, 3) == 3;
    assert MatchAt(s, 3) == None;
    assert RunEnd(s, 2) == 3;
    assert RunEnd(s, 0) == 1;
    assert GroupsEnd(s, 3) == 3;
    assert GroupsEnd(s, 1) == 3;
    assert MatchAt(s, 0) == Some(3);
    assert s[0..3] == "a b" && s[4..7] == "a b";
    assert Matches(s, 7) == [];
    assert Matches(s, 4) == ["a b"];
    assert Matches(s, 3) == ["a b"];
  }

  /** The first quoting of `a b` in `a b/a b` wraps the first segment. */
  lemma RepeatedSegmentFirstQuote(s: string, g: string)
    requires s == "a b/a b" && g == "a b"
    ensures ReplaceFirst(s, g, "\"" + g + "\"") == "\"" + g + "\"/" + g
  {
    assert OccursAt(s, g, 0);
    assert s[3..] == "/" + g;
  }

  /** The second quoting finds the same segment again, now inside the quotes. */
  lemma RepeatedSegmentSecondQuote(g: string)
    requires g == "a b"
    ensures ReplaceFirst("\"" + g + "\"/" + g, g, "\"" + g + "\"") == "\"\"" + g + "\"\"/" + g
  {
    var once := "\"" + g + "\"/" + g;
    assert once[0..3][0] == '"';
    assert !OccursAt(once, g, 0);
    assert once[1..4] == g;
    assert OccursAt(once, g, 1);
    assert IndexOf(once, g) == Some(1);
    assert once[4..] == "\"/" + g;
  }

  /** On `a b/a b` the source's loop quotes the first occurrence of `a b` twice over. */
  lemma RepeatedSegmentLoop(s: string, g: string)
    requires s == "a b/a b" && g == "a b"
    ensures ResolveSpacedPathAsWritten(s)
         == ReplaceFirst(ReplaceFirst(s, g, "\"" + g + "\""), g, "\"" + g + "\"")
  {
    assert ResolveSpacedPathAsWritten(s) == QuoteEachFirstOccurrence(s, [g, g]) by {
      assert s[1] == ' ';
      RepeatedSegmentMatches();
    }
    QuoteEachTwo(s, g, g);
  }

  /**
   * A path that repeats a spaced segment is quoted twice at the first place:
   * `a b/a b` becomes `""a b""/a b` instead of `"a b"/"a b"`.
   */
  lemma RepeatedSegmentQuotedTwice(s: string, g: string)
    requires s == "a b/a b" && g == "a b"
    ensures ResolveSpacedPathAsWritten(s) == "\"\"" + g + "\"\"/" + g
  {
    var q := "\"" + g + "\"";
    calc {
      ResolveSpacedPathAsWritten(s);
      { RepeatedSegmentLoop(s, g); }
      ReplaceFirst(ReplaceFirst(s, g, q), g, q);
      { RepeatedSegmentFirstQuote(s, g); }
      ReplaceFirst("\"" + g + "\"/" + g, g, q);
      { RepeatedSegmentSecondQuote(g); }
      "\"\"" + g + "\"\"/" + g;
    }
  }

  /** Whatever the segment, the twice-quoted shape opens with two adjacent quotes. */
  lemma QuotedTwiceHasAdjacentQuotes(g: string)
    ensures !NoAdjacentQuotes("\"\"" + g + "\"\"/" + g)
  {
    assert QuotePairAt("\"\"" + g + "\"\"/" + g, 0);
  }

  // -------------------------------------------------------------- corrected

  /** Position `j` and the one after it both hold a double quote. */
  predicate QuotePairAt(t: string, j: int) {
    0 <= j && j + 1 < |t| && t[j] == '"' && t[j + 1] == '"'
  }

  /** No two consecutive double quotes. */
  predicate NoAdjacentQuotes(t: string) {
    forall j | 0 <= j < |t| :: !QuotePairAt(t, j)
  }

  /** Quotes every match in place, in one left-to-right pass over the same matcher. */
  function QuoteFrom(s: string, i: nat): (r: string)
    requires i <= |s|
    ensures |r| >= |s| - i
    decreases |s| - i
  {
    if i == |s| then ""
    else
      match MatchAt(s, i)
      case Some(k) => "\"" + s[i..k] + "\"" + QuoteFrom(s, k)
      case None => [s[i]] + QuoteFrom(s, i + 1)
  }

  /** Erasing the quotes from a quoted piece followed by more text. */
  lemma RemoveQuotesWrapThen(m: string, rest: string)
    ensures RemoveChar(("\"" + m + "\"") + rest, '"') == RemoveChar(m, '"') + RemoveChar(rest, '"')
  {
    RemoveCharConcat("\"" + m + "\"", rest, '"');
    RemoveQuotesWrap(m);
  }

  /** Where the single pass continues after position `i`: past the match there, or one character on. */
  function NextStop(s: string, i: nat): (k: nat)
    requires i < |s|
    ensures i < k <= |s|
  {
    if MatchAt(s, i).Some? then MatchAt(s, i).value else i + 1
  }

  /** One step of the single pass, erased: the piece it copies or quotes, then the rest. */
  lemma QuoteFromStep(s: string, i: nat)
    requires i < |s|
    ensures RemoveChar(QuoteFrom(s, i), '"') == RemoveChar(s[i..NextStop(s, i)], '"') + RemoveChar(QuoteFrom(s, NextStop(s, i)), '"')
  {
    match MatchAt(s, i)
    case Some(k) =>
      RemoveQuotesWrapThen(s[i..k], QuoteFrom(s, k));
    case None =>
      assert s[i..i + 1] == [s[i]];
      RemoveCharConcat([s[i]], QuoteFrom(s, i + 1), '"');
  }

  /** Erasing the quotes from the single pass gives back the input's own quote-free text. */
  lemma {:induction false} QuoteFromErasesToInput(s: string, i: nat)
    requires i <= |s|
    ensures RemoveChar(QuoteFrom(s, i), '"') == RemoveChar(s[i..], '"')
    decreases |s| - i
  {
    if i < |s| {
      var k := NextStop(s, i);
      calc {
        RemoveChar(QuoteFrom(s, i), '"');
        { QuoteFromStep(s, i); }
        RemoveChar(s[i..k], '"') + RemoveChar(QuoteFrom(s, k), '"');
        { QuoteFromErasesToInput(s, k); }
        RemoveChar(s[i..k], '"') + RemoveChar(s[k..], '"');
        { RemoveCharConcat(s[i..k], s[k..], '"'); }
        RemoveChar(s[i..k] + s[k..], '"');
        { assert s[i..k] + s[k..] == s[i..]; }
        RemoveChar(s[i..], '"');
      }
    }
  }

  /** The single pass adds exactly two quotes per match. */
  lemma {:induction false} QuoteFromLength(s: string, i: nat)
    requires i <= |s|
    ensures |QuoteFrom(s, i)| == |s| - i + 2 * |Matches(s, i)|
    decreases |s| - i
  {
    if i < |s| {
      match MatchAt(s, i)
      case Some(k) =>
        QuoteFromLength(s, k);
      case None =>
        QuoteFromLength(s, i + 1);
    }
  }

  /** Without matches the single pass copies the input. */
  lemma {:induction false} QuoteFromNoMatches(s: string, i: nat)
    requires i <= |s|
    requires ' ' !in s
    ensures QuoteFrom(s, i) == s[i..]
    decreases |s| - i
  {
    if i < |s| {
      QuoteFromNoMatches(s, i + 1);
      assert s[i..] == [s[i]] + s[i + 1..];
    }
  }

  /**
   * `resolveSpacedPath(path)` as evidently intended: each space-containing
   * run of word characters is wrapped in quotes where it was found.
   */
  function ResolveSpacedPath(path: string): (r: string)
    ensures RemoveChar(r, '"') == RemoveChar(path, '"')
    ensures |r| == |path| + 2 * |Matches(path, 0)|
    ensures ' ' !in path ==> r == path
  {
    QuoteFromErasesToInput(path, 0);
    QuoteFromLength(path, 0);
    assert path[0..] == path;
    if ' ' !in path then
      QuoteFromNoMatches(path, 0);
      QuoteFrom(path, 0)
    else QuoteFrom(path, 0)
  }

  /** Two quote-safe texts stay quote-safe when the seam is not a pair of quotes. */
  lemma NoAdjacentQuotesConcat(a: string, b: string)
    requires NoAdjacentQuotes(a) && NoAdjacentQuotes(b)
    requires |a| == 0 || |b| == 0 || a[|a| - 1] != '"' || b[0] != '"'
    ensures NoAdjacentQuotes(a + b)
  {
    var t := a + b;
    forall j | 0 <= j < |t| - 1
      ensures !QuotePairAt(t, j)
    {
      if j + 1 < |a| {
        assert t[j] == a[j] && t[j + 1] == a[j + 1];
        assert !QuotePairAt(a, j);
      } else if j >= |a| {
        assert t[j] == b[j - |a|] && t[j + 1] == b[j + 1 - |a|];
        assert !QuotePairAt(b, j - |a|);
      }
    }
  }

  /** A quote-free, non-empty text wrapped in quotes has no doubled quote. */
  lemma WrappedNoAdjacentQuotes(m: string)
    requires |m| > 0 && '"' !in m
    ensures NoAdjacentQuotes("\"" + m + "\"")
  {
    var t := "\"" + m + "\"";
    forall j | 0 <= j < |t| - 1
      ensures !QuotePairAt(t, j)
    {
      if j < |m| {
        assert t[j + 1] == m[j];
      } else {
        assert t[j] == m[j - 1];
      }
    }
  }

  /** The single pass starts with a quote only where a match starts. */
  lemma QuoteFromHead(s: string, i: nat)
    requires i <= |s|
    requires '"' !in s
    ensures |QuoteFrom(s, i)| > 0 && QuoteFrom(s, i)[0] == '"' ==> MatchAt(s, i).Some?
  {
    if i < |s| && MatchAt(s, i).None? {
      assert s[i] in s;
    }
  }

  /** No match starts where another one ended. */
  lemma NoMatchAfterMatch(s: string, i: nat)
    requires i <= |s|
    requires MatchAt(s, i).Some?
    ensures MatchAt(s, MatchAt(s, i).value).None?
  {
  }

  /** A quoted match followed by the rest of a quote-free pass has no doubled quote. */
  lemma QuotedMatchNoAdjacentQuotes(s: string, i: nat, k: nat)
    requires i <= |s| && '"' !in s
    requires MatchAt(s, i) == Some(k)
    requires NoAdjacentQuotes(QuoteFrom(s, k))
    ensures NoAdjacentQuotes(("\"" + s[i..k] + "\"") + QuoteFrom(s, k))
  {
    NoMatchAfterMatch(s, i);
    QuoteFromHead(s, k);
    var m := s[i..k];
    forall j | 0 <= j < |m|
      ensures m[j] != '"'
    {
      assert m[j] == s[i + j] && s[i + j] in s;
    }
    WrappedNoAdjacentQuotes(m);
    NoAdjacentQuotesConcat("\"" + m + "\"", QuoteFrom(s, k));
  }

  /** A copied character followed by the rest of a quote-free pass has no doubled quote. */
  lemma CopiedCharNoAdjacentQuotes(s: string, i: nat)
    requires i < |s| && '"' !in s
    requires NoAdjacentQuotes(QuoteFrom(s, i + 1))
    ensures NoAdjacentQuotes([s[i]] + QuoteFrom(s, i + 1))
  {
    assert s[i] in s;
    NoAdjacentQuotesConcat([s[i]], QuoteFrom(s, i + 1));
  }

  /** For a quote-free path the corrected quoting never puts two quotes side by side. */
  lemma {:induction false} QuoteFromNoAdjacentQuotes(s: string, i: nat)
    requires i <= |s|
    requires '"' !in s
    ensures NoAdjacentQuotes(QuoteFrom(s, i))
    decreases |s| - i
  {
    if i < |s| {
      match MatchAt(s, i)
      case Some(k) =>
        QuoteFromNoAdjacentQuotes(s, k);
        QuotedMatchNoAdjacentQuotes(s, i, k);
        assert QuoteFrom(s, i) == ("\"" + s[i..k] + "\"") + QuoteFrom(s, k);
      case None =>
        QuoteFromNoAdjacentQuotes(s, i + 1);
        CopiedCharNoAdjacentQuotes(s, i);
        assert QuoteFrom(s, i) == [s[i]] + QuoteFrom(s, i + 1);
    }
  }

  /** The corrected quoting of a quote-free path has no doubled quotes, unlike the source's loop. */
  lemma ResolveSpacedPathNoAdjacentQuotes(path: string)
    requires '"' !in path
    ensures NoAdjacentQuotes(ResolveSpacedPath(path))
    ensures RemoveChar(ResolveSpacedPath(path), '"') == path
  {
    QuoteFromNoAdjacentQuotes(path, 0);
    RemoveCharAbsent(path, '"');
  }
}
