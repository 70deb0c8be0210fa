/**
 * The JavaScript string operations the modelled code relies on, over
 * `seq<char>`: `split` on characters, `Array.prototype.join`, `indexOf`,
 * `trim`, and the decimal rendering of an integer in a template string.
 */
module Strings {
  import opened Js

  /** Number of characters of `s` that belong to `cs`. */
  function CountIn(s: string, cs: set<char>): nat {
    if |s| == 0 then 0
    else (if s[0] in cs then 1 else 0) + CountIn(s[1..], cs)
  }

  /**
   * `s.split(x)` where every character of `cs` is a separator: the pieces
   * between separators, in order, including empty ones. Like JavaScript,
   * the empty string splits into one empty piece.
   */
  function Split(s: string, cs: set<char>): (pieces: seq<string>)
    ensures |pieces| >= 1
    decreases |s|
  {
    if |s| == 0 then [""]
    else
      var rest := Split(s[1..], cs);
      if s[0] in cs then [""] + rest
      else [[s[0]] + rest[0]] + rest[1..]
  }

  /** `pieces.join(delim)`; an empty array joins to `""`. */
  function Join(pieces: seq<string>, delim: string): string
    decreases |pieces|
  {
    if |pieces| == 0 then ""
    else if |pieces| == 1 then pieces[0]
    else pieces[0] + delim + Join(pieces[1..], delim)
  }

  /** Independent reference: every character of `cs` in `s` replaced by `d`. */
  function ReplaceChars(s: string, cs: set<char>, d: string): string {
    if |s| == 0 then ""
    else (if s[0] in cs then d else [s[0]]) + ReplaceChars(s[1..], cs, d)
  }

  /** `s` with every occurrence of `c` removed (`s.split(c).join("")`). */
  function RemoveChar(s: string, c: char): (r: string)
    ensures c !in r
    ensures |r| <= |s|
  {
    if |s| == 0 then ""
    else (if s[0] == c then "" else [s[0]]) + RemoveChar(s[1..], c)
  }

  /** There are exactly one more pieces than separators in the input. */
  lemma {:induction false} SplitCount(s: string, cs: set<char>)
    ensures |Split(s, cs)| == CountIn(s, cs) + 1
    decreases |s|
  {
    if |s| > 0 {
      SplitCount(s[1..], cs);
    }
  }

  /** No piece produced by `Split` contains a separator. */
  lemma {:induction false} SplitPiecesHaveNoSeparator(s: string, cs: set<char>)
    ensures forall i, j :: 0 <= i < |Split(s, cs)| && 0 <= j < |Split(s, cs)[i]| ==> Split(s, cs)[i][j] !in cs
    decreases |s|
  {
    if |s| > 0 {
      SplitPiecesHaveNoSeparator(s[1..], cs);
    }
  }

  /** A string without separators splits into itself alone. */
  lemma {:induction false} SplitWithoutSeparator(s: string, cs: set<char>)
    requires forall j :: 0 <= j < |s| ==> s[j] !in cs
    ensures Split(s, cs) == [s]
    decreases |s|
  {
    if |s| > 0 {
      SplitWithoutSeparator(s[1..], cs);
      assert [s[0]] + s[1..] == s;
    }
  }

  /** A separator after a separator-free prefix ends the first piece exactly there. */
  lemma {:induction false} SplitAtSeparator(a: string, c: char, b: string)
    requires c !in a
    ensures Split(a + [c] + b, {c}) == [a] + Split(b, {c})
    decreases |a|
  {
    var s := a + [c] + b;
    if |a| == 0 {
      assert s[0] == c && s[1..] == b;
    } else {
      assert a[1..] + [c] + b == s[1..];
      assert a[0] in a;
      SplitAtSeparator(a[1..], c, b);
      assert [s[0]] + a[1..] == a;
    }
  }

  /**
   * Splitting a join undoes it when no piece contains the delimiter
   * character: `pieces.join(c).split(c)` gives the pieces back.
   */
  lemma {:induction false} SplitJoinRoundTrip(pieces: seq<string>, c: char)
    requires |pieces| >= 1
    requires forall i :: 0 <= i < |pieces| ==> c !in pieces[i]
    ensures Split(Join(pieces, [c]), {c}) == pieces
    decreases |pieces|
  {
    if |pieces| == 1 {
      SplitWithoutSeparator(pieces[0], {c});
    } else {
      SplitJoinRoundTrip(pieces[1..], c);
      assert c !in pieces[0];
      SplitAtSeparator(pieces[0], c, Join(pieces[1..], [c]));
      assert pieces == [pieces[0]] + pieces[1..];
    }
  }

  /** Joining a list whose first element was extended at the front extends the join at the front. */
  lemma JoinExtendHead(a: string, rest: seq<string>, d: string)
    requires |rest| >= 1
    ensures Join([a + rest[0]] + rest[1..], d) == a + Join(rest, d)
  {
    var l := [a + rest[0]] + rest[1..];
    if |rest| == 1 {
      assert l == [a + rest[0]];
    } else {
      assert l[1..] == rest[1..];
      assert Join(l, d) == (a + rest[0]) + d + Join(rest[1..], d);
    }
  }

  /**
   * The source's `s.split(c).join(d)` idiom is per-character replacement:
   * joining the pieces of a split with `d` puts `d` exactly where each
   * separator was.
   */
  lemma {:induction false} JoinSplitIsReplace(s: string, cs: set<char>, d: string)
    ensures Join(Split(s, cs), d) == ReplaceChars(s, cs, d)
    decreases |s|
  {
    if |s| > 0 {
      var rest := Split(s[1..], cs);
      JoinSplitIsReplace(s[1..], cs, d);
      if s[0] in cs {
        assert Split(s, cs) == [""] + rest;
        assert ([""] + rest)[1..] == rest;
      } else {
        JoinExtendHead([s[0]], rest, d);
      }
    }
  }

  /** Replacing separators by a string of length one keeps the length. */
  lemma {:induction false} ReplaceCharsLength(s: string, cs: set<char>, d: string)
    requires |d| == 1
    ensures |ReplaceChars(s, cs, d)| == |s|
    decreases |s|
  {
    if |s| > 0 {
      ReplaceCharsLength(s[1..], cs, d);
    }
  }

  /**
   * With a one-character replacement, position `i` of the result holds `d`
   * exactly where `s` held a separator and the original character elsewhere.
   */
  lemma {:induction false} ReplaceCharsAt(s: string, cs: set<char>, d: string, i: int)
    requires |d| == 1
    requires 0 <= i < |s|
    ensures |ReplaceChars(s, cs, d)| == |s|
    ensures ReplaceChars(s, cs, d)[i] == if s[i] in cs then d[0] else s[i]
    decreases |s|
  {
    ReplaceCharsLength(s, cs, d);
    ReplaceCharsLength(s[1..], cs, d);
    if i > 0 {
      ReplaceCharsAt(s[1..], cs, d, i - 1);
    }
  }

  /** Replacing separators that do not occur changes nothing. */
  lemma {:induction false} ReplaceCharsAbsent(s: string, cs: set<char>, d: string)
    requires forall j :: 0 <= j < |s| ==> s[j] !in cs
    ensures ReplaceChars(s, cs, d) == s
    decreases |s|
  {
    if |s| > 0 {
      ReplaceCharsAbsent(s[1..], cs, d);
      assert [s[0]] + s[1..] == s;
    }
  }

  /** Replacing separators by a separator-free string leaves no separator behind. */
  lemma {:induction false} ReplaceCharsRemovesSeparators(s: string, cs: set<char>, d: string)
    requires forall j :: 0 <= j < |d| ==> d[j] !in cs
    ensures forall j :: 0 <= j < |ReplaceChars(s, cs, d)| ==> ReplaceChars(s, cs, d)[j] !in cs
    decreases |s|
  {
    if |s| > 0 {
      ReplaceCharsRemovesSeparators(s[1..], cs, d);
    }
  }

  /** Removing a character distributes over concatenation. */
  lemma {:induction false} RemoveCharConcat(a: string, b: string, c: char)
    ensures RemoveChar(a + b, c) == RemoveChar(a, c) + RemoveChar(b, c)
    decreases |a|
  {
    if |a| == 0 {
      assert a + b == b;
    } else {
      var ab := a + b;
      assert ab[0] == a[0];
      assert ab[1..] == a[1..] + b;
      var head := if a[0] == c then "" else [a[0]];
      assert RemoveChar(ab, c) == head + RemoveChar(a[1..] + b, c);
      RemoveCharConcat(a[1..], b, c);
      assert RemoveChar(a, c) == head + RemoveChar(a[1..], c);
    }
  }

  /** Removing a character that does not occur changes nothing. */
  lemma {:induction false} RemoveCharAbsent(s: string, c: char)
    requires c !in s
    ensures RemoveChar(s, c) == s
    decreases |s|
  {
    if |s| > 0 {
      RemoveCharAbsent(s[1..], c);
      assert [s[0]] + s[1..] == s;
    }
  }

  // ---------------------------------------------------------------- indexOf

  /** `sub` occurs in `s` starting at position `i`. */
  predicate OccursAt(s: string, sub: string, i: nat) {
    i + |sub| <= |s| && s[i..i + |sub|] == sub
  }

  /** `s.indexOf(sub, i)`: the first occurrence at or after `i`, if any. */
  function IndexOfFrom(s: string, sub: string, i: nat): (r: Option<nat>)
    requires i <= |s|
    ensures r.Some? ==> i <= r.value && OccursAt(s, sub, r.value)
    ensures r.Some? ==> forall j :: i <= j < r.value ==> !OccursAt(s, sub, j)
    ensures r.None? ==> forall j :: i <= j ==> !OccursAt(s, sub, j)
    decreases |s| - i
  {
    if OccursAt(s, sub, i) then Some(i)
    else if i == |s| then None
    else IndexOfFrom(s, sub, i + 1)
  }

  /** `s.indexOf(sub)`. */
  function IndexOf(s: string, sub: string): Option<nat> {
    IndexOfFrom(s, sub, 0)
  }

  /** `s.indexOf(sub) > -1`. */
  predicate Contains(s: string, sub: string) {
    IndexOf(s, sub).Some?
  }

  /** `Contains` holds exactly when `sub` occurs somewhere in `s`. */
  lemma ContainsIffOccurs(s: string, sub: string)
    ensures Contains(s, sub) <==> exists i: nat :: OccursAt(s, sub, i)
  {
  }

  /** A one-character needle is contained iff the character is an element. */
  lemma ContainsChar(s: string, c: char)
    ensures Contains(s, [c]) <==> c in s
  {
    if c in s {
      var i :| 0 <= i < |s| && s[i] == c;
      assert OccursAt(s, [c], i);
    }
    if Contains(s, [c]) {
      var i := IndexOf(s, [c]).value;
      assert s[i..i + 1] == [c];
      assert s[i] == c;
    }
  }

  /**
   * `s.replace(sub, rep)` with a string pattern: only the FIRST occurrence
   * of `sub` is replaced; without one, `s` is returned unchanged.
   */
  function ReplaceFirst(s: string, sub: string, rep: string): string {
    match IndexOf(s, sub)
    case None => s
    case Some(i) => s[..i] + rep + s[i + |sub|..]
  }

  // ------------------------------------------------------------------- trim

  /** The characters `String.prototype.trim` removes (WhiteSpace and LineTerminator). */
  predicate IsJsWhitespace(c: char) {
    c == ' ' || c == '\t' || c == '\n' || c == '\r' || c == '\U{000B}' || c == '\U{000C}'
    || c == '\U{00A0}' || c == '\U{1680}' || ('\U{2000}' <= c <= '\U{200A}')
    || c == '\U{2028}' || c == '\U{2029}' || c == '\U{202F}' || c == '\U{205F}'
    || c == '\U{3000}' || c == '\U{FEFF}'
  }

  function TrimStart(s: string): (r: string)
    ensures |r| <= |s| && r == s[|s| - |r|..]
    ensures |r| > 0 ==> !IsJsWhitespace(r[0])
  {
    if |s| > 0 && IsJsWhitespace(s[0]) then TrimStart(s[1..]) else s
  }

  function TrimEnd(s: string): (r: string)
    ensures |r| <= |s| && r == s[..|r|]
    ensures |r| > 0 ==> !IsJsWhitespace(r[|r| - 1])
  {
    if |s| > 0 && IsJsWhitespace(s[|s| - 1]) then TrimEnd(s[..|s| - 1]) else s
  }

  /** `s.trim()`: a contiguous part of `s` with no whitespace at either end. */
  function Trim(s: string): (r: string)
    ensures exists i, j :: 0 <= i <= j <= |s| && r == s[i..j]
    ensures |r| > 0 ==> !IsJsWhitespace(r[0]) && !IsJsWhitespace(r[|r| - 1])
  {
    var t := TrimStart(s);
    var r := TrimEnd(t);
    assert r == s[|s| - |t|..|s| - |t| + |r|];
    r
  }

  /** Trimming a string that is already trimmed changes nothing. */
  lemma TrimIdempotent(s: string)
    ensures Trim(Trim(s)) == Trim(s)
  {
    var r := Trim(s);
    assert TrimStart(r) == r;
    assert TrimEnd(r) == r;
  }

  // ---------------------------------------------------------- number output

  function DigitChar(d: nat): (c: char)
    requires d < 10
    ensures '0' <= c <= '9'
  {
    "0123456789"[d]
  }

  /** The decimal digits of `n`, most significant first, without leading zeros. */
  function NatToString(n: nat): (r: string)
    ensures |r| >= 1
    ensures forall j :: 0 <= j < |r| ==> '0' <= r[j] <= '9'
  {
    if n < 10 then [DigitChar(n)] else NatToString(n / 10) + [DigitChar(n % 10)]
  }

  /** `String(n)` / `${n}` for an integer: an optional minus sign, then digits. */
  function IntToString(n: int): (r: string)
    ensures |r| >= 1
    ensures n >= 0 ==> r == NatToString(n)
    ensures n < 0 ==> r == "-" + NatToString(-n)
  {
    if n < 0 then "-" + NatToString(-n) else NatToString(n)
  }

  /** `String(v)`, as a template literal or `+ " "` renders a primitive. */
  function JsString(v: JsValue): string {
    match v
    case Undefined => "undefined"
    case Null => "null"
    case Bool(b) => if b then "true" else "false"
    case Number(n) => IntToString(n)
    case Str(s) => s
  }

  /** How `Array.prototype.join` renders an element: `undefined` and `null` become empty. */
  function JoinText(v: JsValue): string {
    if v.Undefined? || v.Null? then "" else JsString(v)
  }
}
