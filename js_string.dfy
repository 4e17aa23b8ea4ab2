/** The JavaScript string built-ins and regular-expression atoms the
    scraper relies on, written as explicit scanners over `seq<char>`.
    Every scanner walks an index `i` through its string rather than
    slicing it, so that Dafny can evaluate it on string literals. */
module JsString {

  import opened Wrappers

  /** `\d` in a JavaScript regular expression: the ASCII digits only. */
  predicate IsDigit(c: char) {
    '0' <= c <= '9'
  }

  /** The LineTerminator characters of ECMA-262, which `.` does not match. */
  predicate IsLineTerminator(c: char) {
    c == '\n' || c == '\r' || c == '\U{2028}' || c == '\U{2029}'
  }

  /** `\s`, and the characters `String.prototype.trim` strips:
      WhiteSpace (with the Zs category written out) and LineTerminator. */
  predicate IsSpace(c: char) {
    || c == '\t' || c == '\U{000B}' || c == '\U{000C}' || c == ' ' || c == '\U{00A0}'
    || c == '\U{1680}' || ('\U{2000}' <= c <= '\U{200A}') || c == '\U{202F}'
    || c == '\U{205F}' || c == '\U{3000}' || c == '\U{FEFF}' || IsLineTerminator(c)
  }

  /** The canonical form a case-insensitive (`/i`) regular expression
      compares: ASCII letters, the Cyrillic letters U+0430..U+045F, and
      the historic Cyrillic forms U+1C80..U+1C86 that upper-case into
      U+0410..U+042F. Other characters are compared as they are. */
  function Upper(c: char): char {
    if 'a' <= c <= 'z' || '\U{0430}' <= c <= '\U{044F}' then (c as int - 0x20) as char
    else if '\U{0450}' <= c <= '\U{045F}' then (c as int - 0x50) as char
    else if c == '\U{1C80}' then '\U{0412}'
    else if c == '\U{1C81}' then '\U{0414}'
    else if c == '\U{1C82}' then '\U{041E}'
    else if c == '\U{1C83}' then '\U{0421}'
    else if c == '\U{1C84}' || c == '\U{1C85}' then '\U{0422}'
    else if c == '\U{1C86}' then '\U{042A}'
    else c
  }

  predicate SameChar(c: char, d: char, ci: bool) {
    if ci then Upper(c) == Upper(d) else c == d
  }

  /** Characters k.. of pattern `p` occur in `s` from position i + k on. */
  predicate MatchesFrom(s: string, i: nat, p: string, k: nat, ci: bool)
    requires k <= |p|
    decreases |p| - k
  {
    k == |p| || (i + k < |s| && SameChar(s[i + k], p[k], ci) && MatchesFrom(s, i, p, k + 1, ci))
  }

  /** The literal pattern `p` occurs in `s` at position i
      (case-insensitively when `ci`). */
  predicate MatchesAt(s: string, i: nat, p: string, ci: bool) {
    i + |p| <= |s| && MatchesFrom(s, i, p, 0, ci)
  }

  lemma {:induction false} MatchesFromSlice(s: string, i: nat, p: string, k: nat)
    requires k <= |p| && i + |p| <= |s|
    ensures MatchesFrom(s, i, p, k, false) <==> s[i + k .. i + |p|] == p[k..]
    decreases |p| - k
  {
    if k < |p| {
      MatchesFromSlice(s, i, p, k + 1);
      assert s[i + k .. i + |p|] == [s[i + k]] + s[i + k + 1 .. i + |p|];
      assert p[k..] == [p[k]] + p[k + 1..];
    }
  }

  /** An exact match is a slice equal to the pattern. */
  lemma MatchesAtSlice(s: string, i: nat, p: string)
    ensures MatchesAt(s, i, p, false) <==> i + |p| <= |s| && s[i .. i + |p|] == p
  {
    if i + |p| <= |s| {
      MatchesFromSlice(s, i, p, 0);
    }
  }

  /** Whether a pattern matches at a position does not depend on what
      precedes the string. */
  lemma {:induction false} MatchesFromShift(pre: string, y: string, b: nat, p: string, k: nat, ci: bool)
    requires k <= |p|
    ensures MatchesFrom(pre + y, |pre| + b, p, k, ci) == MatchesFrom(y, b, p, k, ci)
    decreases |p| - k
  {
    if k < |p| {
      MatchesFromShift(pre, y, b, p, k + 1, ci);
      if b + k < |y| {
        assert (pre + y)[|pre| + b + k] == y[b + k];
      }
    }
  }

  /** `RegExp.prototype.test` for a literal pattern: `p` occurs at some
      position at or after i. */
  predicate ContainsFrom(s: string, i: nat, p: string, ci: bool)
    requires i <= |s|
    decreases |s| - i
    ensures ContainsFrom(s, i, p, ci) <==> exists k :: i <= k <= |s| && MatchesAt(s, k, p, ci)
  {
    MatchesAt(s, i, p, ci) || (i < |s| && ContainsFrom(s, i + 1, p, ci))
  }

  /** `s.indexOf(c, i)`, with None for `-1`. */
  function IndexOfFrom(s: string, c: char, i: nat): (r: Option<nat>)
    requires i <= |s|
    decreases |s| - i
    ensures r.Some? ==> i <= r.value < |s| && s[r.value] == c
    ensures r.Some? ==> forall k :: i <= k < r.value ==> s[k] != c
    ensures r.None? ==> forall k :: i <= k < |s| ==> s[k] != c
  {
    if i == |s| then None
    else if s[i] == c then Some(i)
    else IndexOfFrom(s, c, i + 1)
  }

  predicate AllDigits(s: string, lo: nat, hi: nat)
    requires hi <= |s|
  {
    forall k :: lo <= k < hi ==> IsDigit(s[k])
  }

  predicate NoLineTerminator(s: string, lo: nat, hi: nat)
    requires hi <= |s|
  {
    forall k :: lo <= k < hi ==> !IsLineTerminator(s[k])
  }

  /** The end of the greedy run `\d*` that starts at i. */
  function DigitEnd(s: string, i: nat): (j: nat)
    requires i <= |s|
    decreases |s| - i
    ensures i <= j <= |s| && AllDigits(s, i, j)
    ensures j < |s| ==> !IsDigit(s[j])
  {
    if i < |s| && IsDigit(s[i]) then DigitEnd(s, i + 1) else i
  }

  /** The end of the greedy run `\s*` that starts at i. */
  function SkipSpace(s: string, i: nat): (j: nat)
    requires i <= |s|
    decreases |s| - i
    ensures i <= j <= |s|
    ensures forall k :: i <= k < j ==> IsSpace(s[k])
    ensures j < |s| ==> !IsSpace(s[j])
  {
    if i < |s| && IsSpace(s[i]) then SkipSpace(s, i + 1) else i
  }

  /** The start of the run of spaces that ends at j. */
  function SkipSpaceBack(s: string, j: nat): (i: nat)
    requires j <= |s|
    ensures i <= j
    ensures forall k :: i <= k < j ==> IsSpace(s[k])
    ensures 0 < i ==> !IsSpace(s[i - 1])
  {
    if 0 < j && IsSpace(s[j - 1]) then SkipSpaceBack(s, j - 1) else j
  }

  /** `String.prototype.trim`. */
  function Trim(s: string): (r: string)
    ensures |r| <= |s|
    ensures r == [] || (!IsSpace(r[0]) && !IsSpace(r[|r| - 1]))
    ensures r == [] <==> forall k :: 0 <= k < |s| ==> IsSpace(s[k])
  {
    var a := SkipSpace(s, 0);
    if a == |s| then [] else s[a .. SkipSpaceBack(s, |s|)]
  }

  /** Trim removes exactly the surrounding spaces: together with the
      contract of Trim this characterises it completely. */
  lemma TrimFramed(pre: string, core: string, post: string)
    requires forall k :: 0 <= k < |pre| ==> IsSpace(pre[k])
    requires forall k :: 0 <= k < |post| ==> IsSpace(post[k])
    requires core == [] || (!IsSpace(core[0]) && !IsSpace(core[|core| - 1]))
    ensures Trim(pre + core + post) == core
  {
    var s := pre + core + post;
    if core == [] {
      assert forall k :: 0 <= k < |s| ==> IsSpace(s[k]) by {
        forall k | 0 <= k < |s| ensures IsSpace(s[k]) {
          if k < |pre| { assert s[k] == pre[k]; } else { assert s[k] == post[k - |pre|]; }
        }
      }
    } else {
      var a := SkipSpace(s, 0);
      assert s[|pre|] == core[0];
      forall k | 0 <= k < |pre| ensures IsSpace(s[k]) { assert s[k] == pre[k]; }
      assert a == |pre|;
      var b := SkipSpaceBack(s, |s|);
      assert s[|pre| + |core| - 1] == core[|core| - 1];
      forall k | |pre| + |core| <= k < |s| ensures IsSpace(s[k]) {
        assert s[k] == post[k - |pre| - |core|];
      }
      assert b == |pre| + |core|;
      assert s[a..b] == core;
    }
  }

  /** Text that neither starts nor ends with white space is its own trim. */
  lemma TrimUnpadded(s: string)
    requires s == [] || (!IsSpace(s[0]) && !IsSpace(s[|s| - 1]))
    ensures Trim(s) == s
  {
    TrimFramed([], s, []);
    assert [] + s + [] == s;
  }

  /** `s.split(sep)`: `start` is where the current part began, i is the
      next position at which a separator is looked for. */
  function SplitFrom(s: string, sep: string, start: nat, i: nat): (parts: seq<string>)
    requires 0 < |sep| && start <= i <= |s|
    decreases |s| - i
    ensures |parts| >= 1
  {
    if i == |s| then [s[start..]]
    else if MatchesAt(s, i, sep, false) then [s[start..i]] + SplitFrom(s, sep, i + |sep|, i + |sep|)
    else SplitFrom(s, sep, start, i + 1)
  }

  function Split(s: string, sep: string): (parts: seq<string>)
    requires 0 < |sep|
    ensures |parts| >= 1
  {
    SplitFrom(s, sep, 0, 0)
  }

  /** `parts.join(sep)`. */
  function Join(parts: seq<string>, sep: string): string {
    if |parts| == 0 then ""
    else if |parts| == 1 then parts[0]
    else parts[0] + sep + Join(parts[1..], sep)
  }

  /** Joining two non-empty lists of parts puts one separator between them. */
  lemma {:induction false} JoinAppend(a: seq<string>, b: seq<string>, sep: string)
    requires 0 < |a| && 0 < |b|
    ensures Join(a + b, sep) == Join(a, sep) + sep + Join(b, sep)
    decreases |a|
  {
    if |a| == 1 {
      assert (a + b)[1..] == b;
    } else {
      assert (a + b)[1..] == a[1..] + b;
      JoinAppend(a[1..], b, sep);
    }
  }

  lemma JoinThree(a: string, b: string, c: string, sep: string)
    ensures Join([a, b, c], sep) == a + sep + b + sep + c
  {
    assert [a, b, c][1..] == [b, c];
    assert [b, c][1..] == [c];
    assert Join([b, c], sep) == b + sep + c;
  }

  /** Positions where the separator does not occur are skipped over. */
  lemma {:induction false} SplitSkip(s: string, sep: string, start: nat, i: nat, j: nat)
    requires 0 < |sep| && start <= i <= j <= |s|
    requires forall k :: i <= k < j ==> !MatchesAt(s, k, sep, false)
    ensures SplitFrom(s, sep, start, i) == SplitFrom(s, sep, start, j)
    decreases j - i
  {
    if i < j {
      SplitSkip(s, sep, start, i + 1, j);
    }
  }

  /** Splitting does not depend on a prefix that has already been split off. */
  lemma {:induction false} SplitFromShift(pre: string, y: string, sep: string, a: nat, b: nat)
    requires 0 < |sep| && a <= b <= |y|
    ensures SplitFrom(pre + y, sep, |pre| + a, |pre| + b) == SplitFrom(y, sep, a, b)
    decreases |y| - b
  {
    var s := pre + y;
    MatchesFromShift(pre, y, b, sep, 0, false);
    if b == |y| {
      assert s[|pre| + a..] == y[a..];
    } else if MatchesAt(y, b, sep, false) {
      SplitFromShift(pre, y, sep, b + |sep|, b + |sep|);
      assert s[|pre| + a .. |pre| + b] == y[a..b];
    } else {
      SplitFromShift(pre, y, sep, a, b + 1);
    }
  }

  /** The first part of a split runs up to the first separator. */
  lemma SplitFirst(x: string, sep: string, y: string)
    requires 0 < |sep|
    requires forall k :: 0 <= k < |x| ==> !MatchesAt(x + sep + y, k, sep, false)
    ensures Split(x + sep + y, sep) == [x] + Split(y, sep)
  {
    var s := x + sep + y;
    SplitSkip(s, sep, 0, 0, |x|);
    MatchesAtSlice(s, |x|, sep);
    assert s[|x| .. |x| + |sep|] == sep;
    assert s[0..|x|] == x;
    assert s == (x + sep) + y;
    SplitFromShift(x + sep, y, sep, 0, 0);
  }

  /** A string without the separator splits into itself alone. */
  lemma SplitNone(y: string, sep: string)
    requires 0 < |sep|
    requires forall k :: 0 <= k < |y| ==> !MatchesAt(y, k, sep, false)
    ensures Split(y, sep) == [y]
  {
    SplitSkip(y, sep, 0, 0, |y|);
  }

  /** A separator of one character occurs exactly where that character does. */
  lemma MatchesSingle(s: string, k: nat, c: char)
    ensures MatchesAt(s, k, [c], false) <==> k < |s| && s[k] == c
  {
    MatchesAtSlice(s, k, [c]);
  }
  /** A digit run ends where the first non-digit is. */
  lemma {:induction false} DigitEndAt(s: string, i: nat, j: nat)
    requires i <= j <= |s| && AllDigits(s, i, j)
    requires j == |s| || !IsDigit(s[j])
    ensures DigitEnd(s, i) == j
    decreases j - i
  {
    if i < j {
      DigitEndAt(s, i + 1, j);
    }
  }

  /** A run of spaces ends where the first non-space is. */
  lemma {:induction false} SkipSpaceAt(s: string, i: nat, j: nat)
    requires i <= j <= |s|
    requires forall k :: i <= k < j ==> IsSpace(s[k])
    requires j == |s| || !IsSpace(s[j])
    ensures SkipSpace(s, i) == j
    decreases j - i
  {
    if i < j {
      SkipSpaceAt(s, i + 1, j);
    }
  }
  /** Joining lines that hold no separator character and splitting the
      result on that character gives the lines back. */
  lemma {:induction false} SplitJoinChar(parts: seq<string>, c: char)
    requires 0 < |parts|
    requires forall i, k :: 0 <= i < |parts| && 0 <= k < |parts[i]| ==> parts[i][k] != c
    ensures Split(Join(parts, [c]), [c]) == parts
    decreases |parts|
  {
    var head := parts[0];
    if |parts| == 1 {
      forall k | 0 <= k < |head| ensures !MatchesAt(head, k, [c], false) {
        MatchesSingle(head, k, c);
      }
      SplitNone(head, [c]);
    } else {
      var tail := parts[1..];
      var s := head + [c] + Join(tail, [c]);
      forall k | 0 <= k < |head| ensures !MatchesAt(s, k, [c], false) {
        MatchesSingle(s, k, c);
        assert s[k] == head[k];
      }
      SplitFirst(head, [c], Join(tail, [c]));
      assert forall i, k :: 0 <= i < |tail| && 0 <= k < |tail[i]| ==> tail[i][k] == parts[i + 1][k];
      SplitJoinChar(tail, c);
      assert parts == [head] + tail;
    }
  }
}
