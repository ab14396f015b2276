/** The JavaScript string built-ins the server relies on: `trim`,
    `toLowerCase`, `startsWith`, `replace` with a string pattern, and
    `split` followed by `pop`. */
module Strings {
  import opened Api

  // ---------------------------------------------------------------------
  // trim()
  // ---------------------------------------------------------------------

  /** The characters `String.prototype.trim` strips: ECMAScript WhiteSpace
      and LineTerminator. */
  predicate IsJsSpace(c: char)
  {
    || c == ' ' || c == '\t' || c == '\n' || c == '\r'
    || c == '\U{000B}' || c == '\U{000C}' || c == '\U{00A0}' || c == '\U{1680}'
    || ('\U{2000}' <= c <= '\U{200A}')
    || c == '\U{2028}' || c == '\U{2029}' || c == '\U{202F}' || c == '\U{205F}'
    || c == '\U{3000}' || c == '\U{FEFF}'
  }

  function TrimStart(s: string): (r: string)
    ensures |r| <= |s| && r == s[|s| - |r|..]
    ensures r == [] || !IsJsSpace(r[0])
    ensures forall i :: 0 <= i < |s| - |r| ==> IsJsSpace(s[i])
  {
    if s != [] && IsJsSpace(s[0]) then TrimStart(s[1..]) else s
  }

  function TrimEnd(s: string): (r: string)
    ensures |r| <= |s| && r == s[..|r|]
    ensures r == [] || !IsJsSpace(r[|r| - 1])
    ensures forall i :: |r| <= i < |s| ==> IsJsSpace(s[i])
  {
    if s != [] && IsJsSpace(s[|s| - 1]) then TrimEnd(s[..|s| - 1]) else s
  }

  /** `s.trim()`: the longest infix of `s` that neither starts nor ends with
      white space, found by dropping white space from both ends. */
  function Trim(s: string): (r: string)
    ensures exists k :: OccursAt(s, r, k) && OnlySpaceAround(s, k, k + |r|)
    ensures r == [] || (!IsJsSpace(r[0]) && !IsJsSpace(r[|r| - 1]))
  {
    var t := TrimStart(s);
    var r := TrimEnd(t);
    TrimDropsOnlySpace(s);
    TrimEndsNotSpace(s);
    r
  }

  /** Neither end of the trimmed text is white space. */
  lemma TrimEndsNotSpace(s: string)
    ensures var r := TrimEnd(TrimStart(s));
            r == [] || (!IsJsSpace(r[0]) && !IsJsSpace(r[|r| - 1]))
  {
    var t := TrimStart(s);
    var r := TrimEnd(t);
    if r != [] {
      assert r[0] == t[0];
    }
  }

  /** What the two passes of `Trim` drop is white space. */
  lemma TrimDropsOnlySpace(s: string)
    ensures var t := TrimStart(s);
            var k := |s| - |t|;
            OccursAt(s, TrimEnd(t), k) && OnlySpaceAround(s, k, k + |TrimEnd(t)|)
  {
    var t := TrimStart(s);
    var k := |s| - |t|;
    var r := TrimEnd(t);
    assert t == s[k..];
    OccursAtStartOfSuffix(s, k, r);
    SuffixSpace(s, k, |r|);
  }

  /** A prefix of the suffix of `s` from `k` occurs in `s` at `k`. */
  lemma OccursAtStartOfSuffix(s: string, k: nat, r: string)
    requires k <= |s| && |r| <= |s| - k && r == s[k..][..|r|]
    ensures OccursAt(s, r, k)
  {
    assert s[k..][..|r|] == s[k..k + |r|];
  }

  /** White space at the end of the suffix of `s` from `k` is white space
      at the end of `s`. */
  lemma SuffixSpace(s: string, k: nat, n: nat)
    requires k + n <= |s|
    requires forall i :: n <= i < |s| - k ==> IsJsSpace(s[k..][i])
    ensures forall i :: k + n <= i < |s| ==> IsJsSpace(s[i])
  {
    forall i | k + n <= i < |s| ensures IsJsSpace(s[i]) {
      assert s[i] == s[k..][i - k];
    }
  }

  /** Everything of `s` before position `lo` and from position `hi` on is
      white space. */
  predicate OnlySpaceAround(s: string, lo: int, hi: int)
  {
    && (forall i :: 0 <= i < lo && i < |s| ==> IsJsSpace(s[i]))
    && (forall i :: hi <= i < |s| && 0 <= i ==> IsJsSpace(s[i]))
  }

  /** Trimming twice is trimming once. */
  lemma {:induction false} TrimIdempotent(s: string)
    ensures Trim(Trim(s)) == Trim(s)
  {
    var t := Trim(s);
    assert TrimStart(t) == t;
    assert TrimEnd(t) == t;
  }

  // ---------------------------------------------------------------------
  // toLowerCase()
  // ---------------------------------------------------------------------

  predicate IsAsciiUpper(c: char)
  {
    'A' <= c <= 'Z'
  }

  function LowerChar(c: char): char
  {
    if IsAsciiUpper(c) then (c as int + 32) as char else c
  }

  /** `s.toLowerCase()` on the ASCII letters: the same length, no upper-case
      letter left, and every other character kept. */
  function ToLower(s: string): (r: string)
    ensures |r| == |s|
    ensures forall i :: 0 <= i < |r| ==> !IsAsciiUpper(r[i])
    ensures forall i :: 0 <= i < |s| && !IsAsciiUpper(s[i]) ==> r[i] == s[i]
    ensures forall i :: 0 <= i < |s| && IsAsciiUpper(s[i]) ==> r[i] as int == s[i] as int + 32
  {
    seq(|s|, i requires 0 <= i < |s| => LowerChar(s[i]))
  }

  /** A string with no upper-case letter is its own lower case. */
  lemma ToLowerFixed(s: string)
    requires forall i :: 0 <= i < |s| ==> !IsAsciiUpper(s[i])
    ensures ToLower(s) == s
  {
  }

  // ---------------------------------------------------------------------
  // startsWith(), indexOf() and replace()
  // ---------------------------------------------------------------------

  predicate StartsWith(s: string, prefix: string)
  {
    |prefix| <= |s| && s[..|prefix|] == prefix
  }

  /** `pat` occurs in `s` starting at position `i`. */
  predicate OccursAt(s: string, pat: string, i: int)
  {
    0 <= i && i + |pat| <= |s| && s[i..i + |pat|] == pat
  }

  /** `s.indexOf(pat)`: the first position where `pat` occurs in `s`, or
      nothing when it does not occur. */
  function IndexOf(s: string, pat: string): (r: Option<nat>)
    ensures r.Some? ==> OccursAt(s, pat, r.value)
    ensures forall i :: OccursAt(s, pat, i) ==> r.Some? && r.value <= i
  {
    if StartsWith(s, pat) then Some(0)
    else if s == [] then None
    else
      var rest := IndexOf(s[1..], pat);
      assert forall i :: OccursAt(s, pat, i) ==> i >= 1 && OccursAt(s[1..], pat, i - 1) by {
        forall i | OccursAt(s, pat, i) ensures i >= 1 && OccursAt(s[1..], pat, i - 1) {
          assert s[1..][i - 1..i - 1 + |pat|] == s[i..i + |pat|];
        }
      }
      if rest.Some? then
        assert s[1..][rest.value..rest.value + |pat|] == s[rest.value + 1..rest.value + 1 + |pat|];
        Some(rest.value + 1)
      else None
  }

  /** `pat` occurs at `i` and nowhere before it. */
  predicate FirstOccurrence(s: string, pat: string, i: int)
  {
    forall j :: 0 <= j < i ==> !OccursAt(s, pat, j)
  }

  /** `s.startsWith(prefix)` is an occurrence at the very start, so it is
      what `indexOf` reports as position 0. */
  lemma StartsWithAtZero(s: string, prefix: string)
    ensures StartsWith(s, prefix) <==> IndexOf(s, prefix) == Some(0)
  {
    if IndexOf(s, prefix) == Some(0) {
      assert OccursAt(s, prefix, 0);
    }
  }

  /** `s.replace(pat, rep)` with a string pattern: only the FIRST occurrence
      is replaced, wherever it is. */
  function ReplaceFirst(s: string, pat: string, rep: string): (r: string)
    ensures (forall i :: !OccursAt(s, pat, i)) ==> r == s
    ensures forall i :: OccursAt(s, pat, i) && FirstOccurrence(s, pat, i) ==>
      r == s[..i] + rep + s[i + |pat|..]
  {
    match IndexOf(s, pat)
    case None => s
    case Some(i) => s[..i] + rep + s[i + |pat|..]
  }

  // ---------------------------------------------------------------------
  // split() and pop()
  // ---------------------------------------------------------------------

  /** Joins non-empty list of pieces with a separator (`Array.prototype.join`). */
  function Join(parts: seq<string>, sep: char): string
    requires |parts| >= 1
  {
    if |parts| == 1 then parts[0] else parts[0] + [sep] + Join(parts[1..], sep)
  }

  /** `s.split(sep)` with a one-character separator: never empty, no piece
      contains the separator, and joining the pieces back gives `s`. */
  function Split(s: string, sep: char): (r: seq<string>)
    ensures |r| >= 1
    ensures forall i :: 0 <= i < |r| ==> sep !in r[i]
    ensures Join(r, sep) == s
  {
    if s == [] then [[]]
    else
      var rest := Split(s[1..], sep);
      if s[0] == sep then
        [[]] + rest
      else
        assert Join(rest, sep) == s[1..];
        [[s[0]] + rest[0]] + rest[1..]
  }

  /** Splitting off the last piece: everything before it, one separator, then
      the piece itself. */
  lemma {:induction false} JoinLast(parts: seq<string>, sep: char)
    requires |parts| >= 2
    ensures Join(parts, sep) == Join(parts[..|parts| - 1], sep) + [sep] + parts[|parts| - 1]
  {
    if |parts| > 2 {
      JoinLast(parts[1..], sep);
      assert parts[1..][..|parts| - 2] == parts[..|parts| - 1][1..];
    }
  }

  /** `url.split('/').pop()`: the text after the last '/', or the whole
      string when it has none. */
  function LastSegment(s: string): (r: string)
    ensures '/' !in r
    ensures |r| <= |s| && r == s[|s| - |r|..]
    ensures |r| < |s| ==> s[|s| - |r| - 1] == '/'
  {
    var parts := Split(s, '/');
    assert |parts| >= 2 ==> s == Join(parts[..|parts| - 1], '/') + ['/'] + parts[|parts| - 1] by {
      if |parts| >= 2 { JoinLast(parts, '/'); }
    }
    parts[|parts| - 1]
  }
}
