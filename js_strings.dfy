/**
 * The parts of JavaScript's string semantics the model relies on: truthiness of an optional
 * string, the white space set of `\s` and `String.prototype.trim`, ASCII lower-casing,
 * and `split`/`join` with a string separator.
 */
module JsStrings {
  import opened Wrappers

  /** JavaScript truthiness of a value that is either a string or null/undefined. */
  predicate Truthy(v: Option<string>) {
    v.Some? && v.value != ""
  }

  /** The ECMAScript WhiteSpace and LineTerminator code points (what `\s` and `trim` use). */
  predicate IsWhitespace(c: char) {
    c == '\t' || c == '\n' || c == '\U{B}' || c == '\U{C}' || c == '\r' || c == ' '
    || c == '\U{A0}' || c == '\U{1680}' || ('\U{2000}' <= c <= '\U{200A}')
    || c == '\U{2028}' || c == '\U{2029}' || c == '\U{202F}' || c == '\U{205F}'
    || c == '\U{3000}' || c == '\U{FEFF}'
  }

  predicate AllWhitespace(s: string) {
    forall i :: 0 <= i < |s| ==> IsWhitespace(s[i])
  }

  /** `trimStart`: drops the leading white space, and only that. */
  function TrimStart(s: string): (r: string)
    ensures |r| <= |s| && r == s[|s| - |r|..]
    ensures r == [] || !IsWhitespace(r[0])
    ensures AllWhitespace(s[..|s| - |r|])
  {
    if s != [] && IsWhitespace(s[0]) then TrimStart(s[1..]) else s
  }

  /** `trimEnd`: drops the trailing white space, and only that. */
  function TrimEnd(s: string): (r: string)
    ensures |r| <= |s| && r == s[..|r|]
    ensures r == [] || !IsWhitespace(r[|r| - 1])
    ensures AllWhitespace(s[|r|..])
  {
    if s != [] && IsWhitespace(s[|s| - 1]) then TrimEnd(s[..|s| - 1]) else s
  }

  /** `r` is `s` with some white space, and nothing else, removed from its start and its end. */
  predicate StripsWhitespace(s: string, r: string) {
    exists i :: 0 <= i <= |s| - |r| && r == s[i..i + |r|]
                && AllWhitespace(s[..i]) && AllWhitespace(s[i + |r|..])
  }

  /** `String.prototype.trim`. */
  function Trim(s: string): (r: string)
    ensures |r| <= |s|
    ensures r == [] || (!IsWhitespace(r[0]) && !IsWhitespace(r[|r| - 1]))
    ensures r == [] <==> AllWhitespace(s)
    ensures StripsWhitespace(s, r)
  {
    var t := TrimStart(s);
    var r := TrimEnd(t);
    TrimBothEnds(s, t, r);
    r
  }

  /** Dropping the leading white space of `s` (giving `t`) and then the trailing white space
      of `t` (giving `r`) leaves `s` with white space removed from both ends. */
  lemma TrimBothEnds(s: string, t: string, r: string)
    requires |t| <= |s| && t == s[|s| - |t|..] && (t == [] || !IsWhitespace(t[0]))
    requires AllWhitespace(s[..|s| - |t|])
    requires |r| <= |t| && r == t[..|r|] && (r == [] || !IsWhitespace(r[|r| - 1]))
    requires AllWhitespace(t[|r|..])
    ensures |r| <= |s|
    ensures r == [] || (!IsWhitespace(r[0]) && !IsWhitespace(r[|r| - 1]))
    ensures r == [] <==> AllWhitespace(s)
    ensures StripsWhitespace(s, r)
  {
    var k := |s| - |t|;
    if r == [] {
      assert s == s[..k] + t && AllWhitespace(t);
    } else {
      assert r[0] == t[0];
      assert !IsWhitespace(s[k]);
    }
    assert r == s[k..k + |r|] && s[k + |r|..] == t[|r|..];
    TrimmedSlice(s, k, r);
  }

  /** `r` is `s` with white space removed from both ends, witnessed by the start index k. */
  lemma TrimmedSlice(s: string, k: int, r: string)
    requires 0 <= k <= |s| - |r| && r == s[k..k + |r|]
    requires AllWhitespace(s[..k]) && AllWhitespace(s[k + |r|..])
    ensures StripsWhitespace(s, r)
  {
  }

  /** A string that starts with a non-white-space character keeps its start when trimmed. */
  lemma TrimOfUntrimmedStart(s: string)
    requires s != [] && !IsWhitespace(s[0])
    ensures Trim(s) == TrimEnd(s)
  {
  }

  /** Trimming yields a prefix of any string that does not start with white space. */
  lemma TrimIsPrefix(s: string)
    requires s == [] || !IsWhitespace(s[0])
    ensures Trim(s) <= s
  {
    if s != [] {
      TrimOfUntrimmedStart(s);
    }
  }

  /** `toLowerCase` restricted to ASCII: 'A'..'Z' become 'a'..'z', every other character is kept. */
  function LowerChar(c: char): char {
    if 'A' <= c <= 'Z' then (c as int - 'A' as int + 'a' as int) as char else c
  }

  function ToLowerAscii(s: string): (r: string)
    ensures |r| == |s|
    ensures forall i :: 0 <= i < |s| ==> r[i] == LowerChar(s[i])
    ensures forall i :: 0 <= i < |r| ==> !('A' <= r[i] <= 'Z')
    ensures forall i :: 0 <= i < |s| && !('A' <= s[i] <= 'Z') ==> r[i] == s[i]
  {
    seq(|s|, i requires 0 <= i < |s| => LowerChar(s[i]))
  }

  /** Lower-casing neither creates nor removes white space characters. */
  lemma LowerKeepsWhitespace(s: string)
    ensures forall i :: 0 <= i < |s| ==> (IsWhitespace(ToLowerAscii(s)[i]) <==> IsWhitespace(s[i]))
  {
  }

  /** `sep` occurs in `s` starting at index `i`. */
  predicate OccursAt(s: string, sep: string, i: int) {
    0 <= i && i + |sep| <= |s| && s[i..i + |sep|] == sep
  }

  predicate Contains(s: string, sep: string) {
    exists i :: 0 <= i <= |s| && OccursAt(s, sep, i)
  }

  /** The leftmost occurrence of `sep` in `s` at or after `from`, as `indexOf` finds it. */
  function IndexFrom(s: string, sep: string, from: nat): (r: Option<nat>)
    ensures r.Some? ==> from <= r.value && OccursAt(s, sep, r.value)
    ensures r.Some? ==> forall j :: from <= j < r.value ==> !OccursAt(s, sep, j)
    ensures r.None? ==> forall j :: from <= j ==> !OccursAt(s, sep, j)
    decreases |s| - from
  {
    if from + |sep| > |s| then None
    else if s[from..from + |sep|] == sep then Some(from)
    else IndexFrom(s, sep, from + 1)
  }

  function IndexOf(s: string, sep: string): (r: Option<nat>)
    ensures r.Some? ==> OccursAt(s, sep, r.value) && forall j :: 0 <= j < r.value ==> !OccursAt(s, sep, j)
    ensures r.None? <==> !Contains(s, sep)
  {
    IndexFrom(s, sep, 0)
  }

  /** `Array.prototype.join`. */
  function Join(parts: seq<string>, sep: string): string {
    if |parts| == 0 then ""
    else if |parts| == 1 then parts[0]
    else parts[0] + sep + Join(parts[1..], sep)
  }

  /** `String.prototype.split` with a non-empty string separator: the pieces between the
      successive leftmost non-overlapping occurrences of `sep`. */
  function Split(s: string, sep: string): (parts: seq<string>)
    requires sep != []
    ensures |parts| >= 1
    ensures forall k :: 0 <= k < |parts| ==> !Contains(parts[k], sep)
    ensures Join(parts, sep) == s
    ensures |parts| == 1 <==> IndexOf(s, sep).None?
    ensures |parts| >= 2 ==> IndexOf(s, sep) == Some(|parts[0]|)
    decreases |s|
  {
    match IndexOf(s, sep)
    case None => [s]
    case Some(i) =>
      var head, rest := s[..i], s[i + |sep|..];
      var tail := Split(rest, sep);
      NoOccurrenceBefore(s, sep, i);
      assert ([head] + tail)[1..] == tail;
      assert s == head + sep + rest;
      [head] + tail
  }

  /** The text before the leftmost occurrence of `sep` holds no occurrence of it. */
  lemma NoOccurrenceBefore(s: string, sep: string, i: nat)
    requires sep != [] && i <= |s|
    requires forall j :: 0 <= j < i ==> !OccursAt(s, sep, j)
    ensures !Contains(s[..i], sep)
  {
    forall j | 0 <= j && j + |sep| <= i
      ensures !OccursAt(s[..i], sep, j)
    {
      assert !OccursAt(s, sep, j);
      assert s[..i][j..j + |sep|] == s[j..j + |sep|];
    }
  }

  /** When the first character of `sep` occurs in no part, splitting the joined parts gives them back. */
  lemma {:induction false} SplitJoin(parts: seq<string>, sep: string)
    requires sep != [] && |parts| >= 1
    requires forall k, c :: 0 <= k < |parts| && 0 <= c < |parts[k]| ==> parts[k][c] != sep[0]
    ensures Split(Join(parts, sep), sep) == parts
  {
    var s := Join(parts, sep);
    var p := parts[0];
    if |parts| == 1 {
      forall j | 0 <= j && j + |sep| <= |s|
        ensures !OccursAt(s, sep, j)
      {
        assert s[j..j + |sep|][0] == s[j] != sep[0];
      }
    } else {
      var rest := Join(parts[1..], sep);
      assert s == p + sep + rest;
      assert OccursAt(s, sep, |p|) by {
        assert s[|p|..|p| + |sep|] == sep;
      }
      forall j | 0 <= j < |p|
        ensures !OccursAt(s, sep, j)
      {
        assert s[j] == p[j] != sep[0];
        assert j + |sep| <= |s| ==> s[j..j + |sep|][0] == s[j];
      }
      assert IndexOf(s, sep) == Some(|p|);
      assert s[..|p|] == p;
      assert s[|p| + |sep|..] == rest;
      SplitJoin(parts[1..], sep);
    }
  }
}
