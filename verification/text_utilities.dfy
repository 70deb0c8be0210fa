/**
 * Line handling of `src/tools/text.utilities.ts`: splitting command output on
 * carriage returns and line feeds, and turning spaces into line feeds so that
 * `whereis` output (space separated) can be split into one path per line.
 * A non-string argument is modelled as `None`.
 */
module TextUtilities {
  import opened Js
  import opened Strings

  /** The characters of the source's `/[\r\n]/g` separator. */
  const NewlineChars: set<char> := {'\r', '\n'}

  /**
   * `splitNewline(value)`: the pieces between `\r` and `\n` characters. Each
   * `\r` or `\n` ends a piece, so `"\r\n"` yields an empty piece between them.
   */
  function SplitNewline(value: Option<string>): (lines: seq<string>)
    ensures value.None? ==> lines == []
    ensures value.Some? ==> |lines| == CountIn(value.value, NewlineChars) + 1
    ensures forall i, j :: 0 <= i < |lines| && 0 <= j < |lines[i]| ==> lines[i][j] != '\r' && lines[i][j] != '\n'
  {
    match value
    case None => []
    case Some(s) =>
      SplitCount(s, NewlineChars);
      SplitPiecesHaveNoSeparator(s, NewlineChars);
      Split(s, NewlineChars)
  }

  /** For text without `\r`, joining the lines with `"\n"` gives the text back. */
  lemma SplitNewlineRoundTrip(s: string)
    requires '\r' !in s
    ensures Join(SplitNewline(Some(s)), "\n") == s
  {
    JoinSplitIsReplace(s, NewlineChars, "\n");
    ReplaceCharsFixed(s, NewlineChars, '\n');
  }

  /** Replacing separator characters by the only one that occurs is the identity. */
  lemma {:induction false} ReplaceCharsFixed(s: string, cs: set<char>, c: char)
    requires forall j :: 0 <= j < |s| && s[j] in cs ==> s[j] == c
    ensures ReplaceChars(s, cs, [c]) == s
    decreases |s|
  {
    if |s| > 0 {
      ReplaceCharsFixed(s[1..], cs, c);
      assert [s[0]] + s[1..] == s;
    }
  }

  /**
   * `replaceSpacesForNewline(value)`, written as the source does it
   * (`value.split(" ").join("\n")`): the result has the input's length,
   * holds `\n` exactly where the input held a space and the input's
   * character everywhere else, so no space remains. A non-string gives `""`.
   */
  function ReplaceSpacesForNewline(value: Option<string>): (r: string)
    ensures value.None? ==> r == ""
    ensures value.Some? ==> |r| == |value.value|
    ensures value.Some? ==> forall i :: 0 <= i < |r| ==> r[i] == if value.value[i] == ' ' then '\n' else value.value[i]
    ensures ' ' !in r
  {
    match value
    case None => ""
    case Some(s) =>
      var r := Join(Split(s, {' '}), "\n");
      JoinSplitIsReplace(s, {' '}, "\n");
      ReplaceCharsLength(s, {' '}, "\n");
      assert forall i :: 0 <= i < |s| ==> r[i] == if s[i] == ' ' then '\n' else s[i] by {
        forall i | 0 <= i < |s| {
          ReplaceCharsAt(s, {' '}, "\n", i);
        }
      }
      r
  }
}
