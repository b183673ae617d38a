/**
 * The JavaScript built-ins the scripts use on strings and arrays of strings:
 * `startsWith`, `includes`, `indexOf`, `replace` with a string pattern,
 * `split` on a one-character separator, `Array.prototype.join` and `trim`.
 * Strings are sequences of characters; no encoding is involved.
 */
module JsStrings {
  import opened Wrappers

  /** `s.startsWith(p)` */
  predicate StartsWith(s: string, p: string) {
    |p| <= |s| && s[..|p|] == p
  }

  /** A prefix of `s` stays a prefix of anything that extends `s`. */
  lemma StartsWithAppend(s: string, p: string, x: string)
    requires StartsWith(s, p)
    ensures StartsWith(s + x, p)
  {
    assert (s + x)[..|p|] == s[..|p|];
  }

  /** `pat` occurs in `s` starting at index `i`. */
  predicate OccursAt(s: string, pat: string, i: nat) {
    i + |pat| <= |s| && s[i..i + |pat|] == pat
  }

  /** `s.includes(pat)`; true for the empty pattern. */
  predicate Includes(s: string, pat: string) {
    exists i: nat :: i <= |s| - |pat| && OccursAt(s, pat, i)
  }

  /** What occurs in an occurrence of `p` in `s` occurs in `s`. */
  lemma IncludesTransitive(s: string, p: string, q: string)
    requires Includes(s, p) && Includes(p, q)
    ensures Includes(s, q)
  {
    var k: nat :| k <= |s| - |p| && OccursAt(s, p, k);
    var m: nat :| m <= |p| - |q| && OccursAt(p, q, m);
    forall j | 0 <= j < |q|
      ensures s[k + m + j] == q[j]
    {
      assert s[k..k + |p|][m + j] == s[k + m + j];
      assert p[m..m + |q|][j] == p[m + j];
    }
    assert s[k + m..k + m + |q|] == q;
    assert OccursAt(s, q, k + m);
  }

  /** The first occurrence of `pat` in `s` at or after `from`. */
  function IndexFrom(s: string, pat: string, from: nat): (r: Option<nat>)
    ensures r.Some? ==> from <= r.value && OccursAt(s, pat, r.value)
    ensures r.Some? ==> forall j: nat :: from <= j < r.value ==> !OccursAt(s, pat, j)
    ensures r.None? ==> forall j: nat :: from <= j ==> !OccursAt(s, pat, j)
    decreases |s| - from
  {
    if from + |pat| > |s| then None
    else if OccursAt(s, pat, from) then Some(from)
    else IndexFrom(s, pat, from + 1)
  }

  /** `s.indexOf(pat)`, with `None` for -1. */
  function IndexOf(s: string, pat: string): (r: Option<nat>)
    ensures r.Some? ==> OccursAt(s, pat, r.value)
    ensures r.Some? ==> forall j: nat :: j < r.value ==> !OccursAt(s, pat, j)
    ensures r.None? <==> !Includes(s, pat)
  {
    IndexFrom(s, pat, 0)
  }

  /**
   * `s.replace(pat, rep)` with a string pattern: only the first occurrence is
   * replaced. `rep` is pasted in literally; JavaScript would read `$&`, `$$`,
   * `` $` `` and `$'` in it as patterns, so this is exact for replacements
   * without `$`, such as `.local-context.json`.
   */
  function ReplaceFirst(s: string, pat: string, rep: string): string {
    match IndexOf(s, pat)
    case None => s
    case Some(i) => s[..i] + rep + s[i + |pat|..]
  }

  /** Where the first occurrence is known, `replace` splices `rep` in there; with none, nothing changes. */
  lemma ReplaceFirstAt(s: string, pat: string, rep: string, i: nat)
    requires OccursAt(s, pat, i)
    requires forall j: nat :: j < i ==> !OccursAt(s, pat, j)
    ensures ReplaceFirst(s, pat, rep) == s[..i] + rep + s[i + |pat|..]
  {
    assert i <= |s| - |pat|;
  }

  /** A pattern with a character that `s` lacks does not occur in `s`. */
  lemma {:induction false} MissingCharExcludes(s: string, pat: string, c: char)
    requires c in pat && c !in s
    ensures !Includes(s, pat)
  {
    var k :| 0 <= k < |pat| && pat[k] == c;
    forall i: nat | i <= |s| - |pat|
      ensures !OccursAt(s, pat, i)
    {
      assert s[i + k] in s;
      assert s[i..i + |pat|][k] == s[i + k];
    }
  }

  /** `s.split(sep)` for a one-character separator: every piece between separators, in order. */
  function Split(s: string, sep: char): (parts: seq<string>)
    ensures |parts| >= 1
    ensures forall k :: 0 <= k < |parts| ==> sep !in parts[k]
  {
    if |s| == 0 then [""]
    else
      var rest := Split(s[1..], sep);
      if s[0] == sep then [""] + rest
      else [[s[0]] + rest[0]] + rest[1..]
  }

  /** `parts.join(sep)` */
  function JoinWith(parts: seq<string>, sep: string): string {
    if |parts| == 0 then ""
    else if |parts| == 1 then parts[0]
    else parts[0] + sep + JoinWith(parts[1..], sep)
  }

  /** Splitting at a separator splits the two sides independently. */
  lemma {:induction false} SplitAppend(a: string, sep: char, b: string)
    ensures Split(a + [sep] + b, sep) == Split(a, sep) + Split(b, sep)
    decreases |a|
  {
    if |a| == 0 {
      assert a + [sep] + b == [sep] + b;
      assert ([sep] + b)[1..] == b;
    } else {
      assert (a + [sep] + b)[1..] == a[1..] + [sep] + b;
      SplitAppend(a[1..], sep, b);
    }
  }

  /** A string without the separator splits into itself alone. */
  lemma {:induction false} SplitNoSeparator(a: string, sep: char)
    requires sep !in a
    ensures Split(a, sep) == [a]
    decreases |a|
  {
    if |a| > 0 {
      SplitNoSeparator(a[1..], sep);
      assert [a[0]] + a[1..] == a;
    }
  }

  /** Round trip: joining the pieces of a split with the separator restores the string. */
  lemma {:induction false} JoinSplit(s: string, sep: char)
    ensures JoinWith(Split(s, sep), [sep]) == s
    decreases |s|
  {
    if |s| > 0 {
      var rest := Split(s[1..], sep);
      JoinSplit(s[1..], sep);
      if s[0] == sep {
        assert Split(s, sep)[1..] == rest;
        assert JoinWith(Split(s, sep), [sep]) == "" + [sep] + JoinWith(rest, [sep]);
        assert [s[0]] + s[1..] == s;
      } else {
        var parts := Split(s, sep);
        assert parts[0] == [s[0]] + rest[0];
        assert parts[1..] == rest[1..];
        if |rest| == 1 {
          assert JoinWith(parts, [sep]) == [s[0]] + rest[0];
          assert [s[0]] + s[1..] == s;
        } else {
          assert JoinWith(rest, [sep]) == rest[0] + [sep] + JoinWith(rest[1..], [sep]);
          assert JoinWith(parts, [sep]) == [s[0]] + rest[0] + [sep] + JoinWith(rest[1..], [sep]);
          assert [s[0]] + s[1..] == s;
        }
      }
    }
  }

  /** Round trip: splitting a join of separator-free pieces gives the pieces back. */
  lemma {:induction false} SplitJoin(parts: seq<string>, sep: char)
    requires |parts| >= 1
    requires forall k :: 0 <= k < |parts| ==> sep !in parts[k]
    ensures Split(JoinWith(parts, [sep]), sep) == parts
    decreases |parts|
  {
    if |parts| == 1 {
      SplitNoSeparator(parts[0], sep);
    } else {
      SplitJoin(parts[1..], sep);
      SplitAppend(parts[0], sep, JoinWith(parts[1..], [sep]));
      SplitNoSeparator(parts[0], sep);
      assert [parts[0]] + parts[1..] == parts;
    }
  }

  /** A pattern found in the middle part of a concatenation is found in the whole. */
  lemma IncludesInMiddle(a: string, b: string, c: string, pat: string)
    requires Includes(b, pat)
    ensures Includes(a + b + c, pat)
  {
    var i: nat :| i <= |b| - |pat| && OccursAt(b, pat, i);
    var s := a + b + c;
    assert s[|a| + i..|a| + i + |pat|] == b[i..i + |pat|];
    assert OccursAt(s, pat, |a| + i);
  }

  /** Every element of a joined list occurs in the joined string. */
  lemma {:induction false} JoinIncludesEach(parts: seq<string>, sep: string, k: nat)
    requires k < |parts|
    ensures Includes(JoinWith(parts, sep), parts[k])
    decreases |parts|
  {
    if |parts| == 1 || k == 0 {
      var j := JoinWith(parts, sep);
      var rest := if |parts| == 1 then "" else sep + JoinWith(parts[1..], sep);
      assert j == parts[0] + rest;
      assert OccursAt(j, parts[0], 0);
    } else {
      JoinIncludesEach(parts[1..], sep, k - 1);
      assert Includes(JoinWith(parts[1..], sep), parts[k]);
      IncludesInMiddle(parts[0] + sep, JoinWith(parts[1..], sep), "", parts[k]);
      assert JoinWith(parts, sep) == parts[0] + sep + JoinWith(parts[1..], sep) + "";
    }
  }

  /** The characters `trim` removes: ECMAScript WhiteSpace and LineTerminator code points. */
  predicate IsJsWhitespace(c: char) {
    || c == '\t' || c == '\n' || c == '\U{B}' || c == '\U{C}' || c == '\r' || c == ' '
    || c == '\U{A0}' || c == '\U{1680}' || ('\U{2000}' <= c <= '\U{200A}')
    || c == '\U{2028}' || c == '\U{2029}' || c == '\U{202F}' || c == '\U{205F}'
    || c == '\U{3000}' || c == '\U{FEFF}'
  }

  /** `s` with its leading whitespace removed. */
  function TrimStart(s: string): (r: string)
    ensures |r| <= |s| && r == s[|s| - |r|..]
    ensures forall k :: 0 <= k < |s| - |r| ==> IsJsWhitespace(s[k])
    ensures r != [] ==> !IsJsWhitespace(r[0])
  {
    if s != [] && IsJsWhitespace(s[0]) then TrimStart(s[1..]) else s
  }

  /** `s` with its trailing whitespace removed. */
  function TrimEnd(s: string): (r: string)
    ensures |r| <= |s| && r == s[..|r|]
    ensures forall k :: |r| <= k < |s| ==> IsJsWhitespace(s[k])
    ensures r != [] ==> !IsJsWhitespace(r[|r| - 1])
  {
    if s != [] && IsJsWhitespace(s[|s| - 1]) then TrimEnd(s[..|s| - 1]) else s
  }

  /** `r` is `s[i..j]`, and everything `s` has before `i` and from `j` on is whitespace. */
  predicate CutsOffWhitespace(s: string, r: string, i: int, j: int) {
    && 0 <= i <= j <= |s| && r == s[i..j]
    && (forall k :: 0 <= k < i ==> IsJsWhitespace(s[k]))
    && (forall k :: j <= k < |s| ==> IsJsWhitespace(s[k]))
  }

  /** `s.trim()`: a slice of `s` that neither starts nor ends with whitespace, all of whose cut-off characters are whitespace. */
  function Trim(s: string): (r: string)
    ensures r != [] ==> !IsJsWhitespace(r[0]) && !IsJsWhitespace(r[|r| - 1])
    ensures exists i, j :: CutsOffWhitespace(s, r, i, j)
  {
    var t := TrimStart(s);
    var r := TrimEnd(t);
    CutFrontThenBack(s, t, r);
    r
  }

  /** Cutting whitespace off the front of `s` to get `t`, then off the back of `t` to get `r`, cuts off only whitespace. */
  lemma CutFrontThenBack(s: string, t: string, r: string)
    requires |t| <= |s| && t == s[|s| - |t|..]
    requires forall k :: 0 <= k < |s| - |t| ==> IsJsWhitespace(s[k])
    requires |r| <= |t| && r == t[..|r|]
    requires forall k :: |r| <= k < |t| ==> IsJsWhitespace(t[k])
    ensures CutsOffWhitespace(s, r, |s| - |t|, |s| - |t| + |r|)
  {
    var i := |s| - |t|;
    forall k | i + |r| <= k < |s|
      ensures IsJsWhitespace(s[k])
    {
      assert s[k] == t[k - i];
    }
  }

  /** A string that neither starts nor ends with whitespace is its own trim, so `trim` is idempotent. */
  lemma TrimFixed(s: string)
    requires s != [] ==> !IsJsWhitespace(s[0]) && !IsJsWhitespace(s[|s| - 1])
    ensures Trim(s) == s
  {
  }

  lemma TrimIdempotent(s: string)
    ensures Trim(Trim(s)) == Trim(s)
  {
    TrimFixed(Trim(s));
  }
}
