/**
 * The parts of Python's `str` and `re` behaviour that the modelled code relies on:
 * `isspace`, `strip`, `split()`, `split(sep)`, `sep.join`, `startswith`, `in`,
 * literal `re.sub`, `upper` and the `\b` word boundary of `re`.
 *
 * Case conversion and the word boundary are modelled for ASCII letters, digits and
 * `_` only; whitespace follows Python's `str.isspace` exactly.
 */
module PyStr {
  import opened Wrappers

  /** Python's `str.isspace()` for one character. */
  predicate IsSpace(c: char) {
    || ('\t' <= c <= '\r')
    || ('\U{001C}' <= c <= '\U{001F}')
    || c == ' ' || c == '\U{0085}' || c == '\U{00A0}' || c == '\U{1680}'
    || ('\U{2000}' <= c <= '\U{200A}')
    || c == '\U{2028}' || c == '\U{2029}' || c == '\U{202F}' || c == '\U{205F}' || c == '\U{3000}'
  }

  predicate AllSpace(s: string) {
    forall k :: 0 <= k < |s| ==> IsSpace(s[k])
  }

  /** No whitespace at either end: what `strip()` produces. */
  predicate Stripped(s: string) {
    s == [] || (!IsSpace(s[0]) && !IsSpace(s[|s| - 1]))
  }

  /** Number of whitespace characters at the start of `s`. */
  function LeadingSpaceCount(s: string): (n: nat)
    ensures n <= |s|
    ensures forall k :: 0 <= k < n ==> IsSpace(s[k])
    ensures n < |s| ==> !IsSpace(s[n])
  {
    if s == [] || !IsSpace(s[0]) then 0 else 1 + LeadingSpaceCount(s[1..])
  }

  /** Number of whitespace characters at the end of `s`. */
  function TrailingSpaceCount(s: string): (n: nat)
    ensures n <= |s|
    ensures forall k :: |s| - n <= k < |s| ==> IsSpace(s[k])
    ensures n < |s| ==> !IsSpace(s[|s| - 1 - n])
  {
    if s == [] || !IsSpace(s[|s| - 1]) then 0 else 1 + TrailingSpaceCount(s[..|s| - 1])
  }

  /** Python's `s.strip()`: the slice left after removing whitespace at both ends. */
  function Strip(s: string): (r: string)
    ensures Stripped(r)
    ensures LeadingSpaceCount(s) + |r| <= |s|
    ensures r == s[LeadingSpaceCount(s)..LeadingSpaceCount(s) + |r|]
    ensures forall k :: LeadingSpaceCount(s) + |r| <= k < |s| ==> IsSpace(s[k])
    ensures r == [] <==> AllSpace(s)
  {
    var t := s[LeadingSpaceCount(s)..];
    t[..|t| - TrailingSpaceCount(t)]
  }

  /** The characters of `strip()` are those of `s` after its leading whitespace. */
  lemma StripChars(s: string)
    ensures forall k :: 0 <= k < |Strip(s)| ==> Strip(s)[k] == s[LeadingSpaceCount(s) + k]
  {
    var r := Strip(s);
    var n := LeadingSpaceCount(s);
    assert r == s[n..n + |r|];
  }

  lemma StripOfStripped(s: string)
    requires Stripped(s)
    ensures Strip(s) == s
  {
  }

  lemma StripIdempotent(s: string)
    ensures Strip(Strip(s)) == Strip(s)
  {
    StripOfStripped(Strip(s));
  }

  /** Python's `str.upper()` restricted to ASCII letters. */
  function UpperChar(c: char): char {
    if 'a' <= c <= 'z' then (c as int - 32) as char else c
  }

  /** Upper-casing leaves no lower-case ASCII letter and keeps every other character. */
  function Upper(s: string): (r: string)
    ensures |r| == |s|
    ensures forall k :: 0 <= k < |s| ==> r[k] == UpperChar(s[k])
    ensures forall k :: 0 <= k < |r| ==> !('a' <= r[k] <= 'z')
    ensures forall k :: 0 <= k < |s| && !('a' <= s[k] <= 'z') ==> r[k] == s[k]
  {
    seq(|s|, k requires 0 <= k < |s| => UpperChar(s[k]))
  }

  /** Upper-casing twice is upper-casing once. */
  lemma UpperIdempotent(s: string)
    ensures Upper(Upper(s)) == Upper(s)
  {
  }

  predicate StartsWith(s: string, prefix: string) {
    |prefix| <= |s| && s[..|prefix|] == prefix
  }

  predicate EndsWith(s: string, suffix: string) {
    |suffix| <= |s| && s[|s| - |suffix|..] == suffix
  }

  /** A character `\w` matches, restricted to ASCII. */
  predicate IsWordChar(c: char) {
    ('a' <= c <= 'z') || ('A' <= c <= 'Z') || ('0' <= c <= '9') || c == '_'
  }

  predicate WordAt(s: string, i: int) {
    0 <= i < |s| && IsWordChar(s[i])
  }

  /** `\b` at position `p` (between `s[p-1]` and `s[p]`). */
  predicate Boundary(s: string, p: int) {
    WordAt(s, p - 1) != WordAt(s, p)
  }

  /** The pattern `\bW\b` (with `re.escape(W)`) matches `s` at `i`; `ci` is `re.IGNORECASE`. */
  predicate MatchWordAt(s: string, i: int, w: string, ci: bool) {
    && 0 <= i && i + |w| <= |s|
    && (if ci then Upper(s[i..i + |w|]) == Upper(w) else s[i..i + |w|] == w)
    && Boundary(s, i) && Boundary(s, i + |w|)
  }

  /** `re.search(r"\bW\b", s[from:])` in position: the leftmost match at or after `from`. */
  function FindWord(s: string, w: string, ci: bool, from: nat): (r: Option<nat>)
    requires from <= |s|
    decreases |s| - from
    ensures r.Some? ==> from <= r.value && MatchWordAt(s, r.value, w, ci)
    ensures r.Some? ==> forall i :: from <= i < r.value ==> !MatchWordAt(s, i, w, ci)
    ensures r.None? ==> forall i :: from <= i ==> !MatchWordAt(s, i, w, ci)
  {
    if from + |w| > |s| then None
    else if MatchWordAt(s, from, w, ci) then Some(from)
    else if from == |s| then None
    else FindWord(s, w, ci, from + 1)
  }

  /** `re.search(rf"\b{re.escape(w)}\b", s)` succeeds (case-sensitive). */
  predicate HasWord(s: string, w: string) {
    FindWord(s, w, false, 0).Some?
  }

  lemma HasWordIff(s: string, w: string)
    ensures HasWord(s, w) <==> exists i :: MatchWordAt(s, i, w, false)
  {
  }

  /** Length of the run of non-whitespace characters at the start of `s`. */
  function WordLength(s: string): (n: nat)
    ensures n <= |s|
    ensures forall k :: 0 <= k < n ==> !IsSpace(s[k])
    ensures n < |s| ==> IsSpace(s[n])
  {
    if s == [] || IsSpace(s[0]) then 0 else 1 + WordLength(s[1..])
  }

  /** Python's `s.split()` with no separator: the maximal runs of non-whitespace. */
  function Tokens(s: string): (r: seq<string>)
    ensures forall t :: t in r ==> t != [] && forall k :: 0 <= k < |t| ==> !IsSpace(t[k])
    ensures r == [] <==> AllSpace(s)
    decreases |s|
  {
    var a := LeadingSpaceCount(s);
    if a == |s| then []
    else
      var rest := s[a..];
      assert rest[0] == s[a];
      var n := WordLength(rest);
      assert n >= 1;
      [rest[..n]] + Tokens(rest[n..])
  }

  /** A single word followed by whitespace splits into just that word. */
  lemma {:induction false} TokensOfWord(w: string, tail: string)
    requires w != [] && forall k :: 0 <= k < |w| ==> !IsSpace(w[k])
    requires AllSpace(tail)
    ensures Tokens(w + tail) == [w]
  {
    var s := w + tail;
    assert !IsSpace(s[0]);
    assert LeadingSpaceCount(s) == 0;
    assert s[0..] == s;
    if |tail| > 0 {
      assert s[|w|] == tail[0];
    }
    assert WordLength(s) >= |w| by {
      WordLengthAtLeast(s, |w|);
    }
    assert WordLength(s) == |w|;
    assert s[..|w|] == w;
    assert s[|w|..] == tail;
    assert Tokens(tail) == [];
  }

  lemma {:induction false} WordLengthAtLeast(s: string, m: nat)
    requires m <= |s| && forall k :: 0 <= k < m ==> !IsSpace(s[k])
    ensures WordLength(s) >= m
  {
    if m > 0 {
      WordLengthAtLeast(s[1..], m - 1);
    }
  }

  /** Python's `sep.join(parts)`. */
  function Join(parts: seq<string>, sep: string): (r: string)
    ensures parts == [] ==> r == []
    ensures |parts| == 1 ==> r == parts[0]
  {
    if parts == [] then []
    else if |parts| == 1 then parts[0]
    else Join(parts[..|parts| - 1], sep) + sep + parts[|parts| - 1]
  }

  lemma JoinAppend(parts: seq<string>, last: string, sep: string)
    requires parts != []
    ensures Join(parts + [last], sep) == Join(parts, sep) + sep + last
  {
    assert (parts + [last])[..|parts|] == parts;
  }

  /** The pieces after one more character: a new empty piece, or the last piece grown. */
  function AppendChar(pieces: seq<string>, x: char, c: char): (r: seq<string>)
    requires pieces != []
    ensures |r| >= 1
    ensures (forall i :: 0 <= i < |pieces| ==> c !in pieces[i]) ==> forall i :: 0 <= i < |r| ==> c !in r[i]
  {
    if x == c then pieces + [[]] else pieces[..|pieces| - 1] + [pieces[|pieces| - 1] + [x]]
  }

  /** Python's `s.split(c)` for a one-character separator: never empty, pieces free of `c`. */
  function SplitOn(s: string, c: char): (r: seq<string>)
    ensures |r| >= 1
    ensures forall i :: 0 <= i < |r| ==> c !in r[i]
    decreases |s|
  {
    if s == [] then [[]] else AppendChar(SplitOn(s[..|s| - 1], c), s[|s| - 1], c)
  }

  lemma SplitOnSnoc(s: string, x: char, c: char)
    ensures SplitOn(s + [x], c) == AppendChar(SplitOn(s, c), x, c)
  {
    assert (s + [x])[..|s|] == s;
  }

  lemma AppendCharConcat(a: seq<string>, b: seq<string>, x: char, c: char)
    requires b != []
    ensures AppendChar(a + b, x, c) == a + AppendChar(b, x, c)
  {
    if x != c {
      assert (a + b)[..|a + b| - 1] == a + b[..|b| - 1];
    }
  }

  /** Joining the pieces back with the separator gives the original string. */
  lemma {:induction false} SplitOnJoin(s: string, c: char)
    ensures Join(SplitOn(s, c), [c]) == s
    decreases |s|
  {
    if s != [] {
      var init := s[..|s| - 1];
      var x := s[|s| - 1];
      assert s == init + [x];
      SplitOnJoin(init, c);
      var p := SplitOn(init, c);
      if x == c {
        JoinAppend(p, [], [c]);
      } else {
        var front := p[..|p| - 1];
        var last := p[|p| - 1];
        assert p == front + [last];
        assert AppendChar(p, x, c) == front + [last + [x]];
        if front == [] {
          assert Join(p, [c]) == last;
        } else {
          JoinAppend(front, last, [c]);
          JoinAppend(front, last + [x], [c]);
        }
      }
    }
  }

  /** A string without the separator is a single piece. */
  lemma {:induction false} SplitOnAbsent(s: string, c: char)
    requires c !in s
    ensures SplitOn(s, c) == [s]
    decreases |s|
  {
    if s != [] {
      SplitOnAbsent(s[..|s| - 1], c);
      assert s[..|s| - 1] + [s[|s| - 1]] == s;
    }
  }

  /** The text before the first `c` (Python's `s.split(c)[0]`). */
  function Before(s: string, c: char): (r: string)
    ensures StartsWith(s, r) && c !in r
    ensures |r| < |s| ==> s[|r|] == c
  {
    if s == [] || s[0] == c then [] else [s[0]] + Before(s[1..], c)
  }

  /** Python's `s.replace(c, '')`. */
  function RemoveChar(s: string, c: char): (r: string)
    ensures c !in r
    ensures |r| <= |s|
  {
    if s == [] then [] else (if s[0] == c then [] else [s[0]]) + RemoveChar(s[1..], c)
  }

  /** `re.sub(p, '', s)` for a literal, non-empty pattern: leftmost, non-overlapping removal. */
  function RemoveAll(s: string, p: string): (r: string)
    requires p != []
    ensures |r| <= |s|
  {
    if s == [] then []
    else if StartsWith(s, p) then RemoveAll(s[|p|..], p)
    else [s[0]] + RemoveAll(s[1..], p)
  }

  /** `p` occurs in `s` at position `i`. */
  predicate OccursAt(s: string, p: string, i: int) {
    0 <= i && i + |p| <= |s| && s[i..i + |p|] == p
  }

  /** `p` occurs in `s` as a substring (Python's `p in s`). */
  ghost predicate Occurs(s: string, p: string) {
    exists i :: OccursAt(s, p, i)
  }

  /** Removing a pattern that does not occur changes nothing. */
  lemma {:induction false} RemoveAllAbsent(s: string, p: string)
    requires p != [] && !Occurs(s, p)
    ensures RemoveAll(s, p) == s
    decreases |s|
  {
    if s != [] {
      assert !StartsWith(s, p) by {
        if StartsWith(s, p) { assert OccursAt(s, p, 0); }
      }
      assert !Occurs(s[1..], p) by {
        if Occurs(s[1..], p) {
          var i :| OccursAt(s[1..], p, i);
          assert s[1..][i..i + |p|] == s[i + 1..i + 1 + |p|];
          assert OccursAt(s, p, i + 1);
        }
      }
      RemoveAllAbsent(s[1..], p);
    }
  }
}
