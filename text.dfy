/** String helpers shared by the JavaScript and the Python parts of the
    model: the fixed whitespace set behind `trim()`, `strip()` and `\s`,
    lower-casing, prefix and substring tests, and `split` on one character. */
module Text {
  import opened Wrappers

  /** The whitespace set used for `String.prototype.trim`, `str.strip`
      and the regular-expression class `\s`. */
  predicate IsWs(c: char) {
    c == ' ' || c == '\t' || c == '\n' || c == '\r' || c == '\U{000B}' || c == '\U{000C}'
  }

  predicate AllWs(s: string) {
    forall k :: 0 <= k < |s| ==> IsWs(s[k])
  }

  /** Number of whitespace characters at the start of `s`. */
  function LeadingWs(s: string): (n: nat)
    ensures n <= |s|
    ensures forall k :: 0 <= k < n ==> IsWs(s[k])
    ensures n < |s| ==> !IsWs(s[n])
  {
    if |s| > 0 && IsWs(s[0]) then 1 + LeadingWs(s[1..]) else 0
  }

  /** Number of whitespace characters at the end of `s`. */
  function TrailingWs(s: string): (n: nat)
    ensures n <= |s|
    ensures forall k :: |s| - n <= k < |s| ==> IsWs(s[k])
    ensures n < |s| ==> !IsWs(s[|s| - 1 - n])
  {
    if |s| > 0 && IsWs(s[|s| - 1]) then 1 + TrailingWs(s[..|s| - 1]) else 0
  }

  /** `s.trim()` / `s.strip()`: the longest infix of `s` that neither
      starts nor ends with whitespace, with only whitespace around it. */
  function Trim(s: string): (r: string)
    ensures LeadingWs(s) + |r| <= |s|
    ensures Trimmed(r)
    ensures r == s[LeadingWs(s)..LeadingWs(s) + |r|]
    ensures forall k :: LeadingWs(s) + |r| <= k < |s| ==> IsWs(s[k])
  {
    var t := s[LeadingWs(s)..];
    t[..|t| - TrailingWs(t)]
  }

  /** `s.trimEnd()` */
  function TrimEnd(s: string): string {
    s[..|s| - TrailingWs(s)]
  }

  lemma TrimIsTrimEnd(s: string)
    ensures Trim(s) == TrimEnd(s[LeadingWs(s)..])
  {
  }

  predicate Blank(s: string) {
    Trim(s) == ""
  }

  /** A string trims to nothing exactly when it is all whitespace. */
  lemma BlankIffAllWs(s: string)
    ensures Blank(s) <==> AllWs(s)
  {
  }

  /** Neither end of `s` is whitespace. */
  predicate Trimmed(s: string) {
    s == "" || (!IsWs(s[0]) && !IsWs(s[|s| - 1]))
  }

  /** A string is trimmed exactly when trimming it changes nothing. */
  lemma TrimmedIff(s: string)
    ensures Trimmed(s) <==> Trim(s) == s
  {
    if Trimmed(s) {
      TrimOfTrimmed(s);
    }
  }

  /** Trimming a string that is already trimmed changes nothing. */
  lemma TrimOfTrimmed(s: string)
    requires Trimmed(s)
    ensures Trim(s) == s
  {
    if s != "" {
      assert LeadingWs(s) == 0;
      assert TrailingWs(s) == 0;
    }
  }

  lemma TrimIdempotent(s: string)
    ensures Trim(Trim(s)) == Trim(s)
  {
    TrimOfTrimmed(Trim(s));
  }

  /** Whitespace added around a string disappears under trimming. */
  lemma TrimPadded(w1: string, s: string, w2: string)
    requires AllWs(w1) && AllWs(w2)
    ensures Trim(w1 + s + w2) == Trim(s)
  {
    if Trim(s) == "" {
      TrimPaddedBlank(w1, s, w2);
    } else {
      TrimPaddedText(w1, s, w2);
    }
  }

  lemma TrimPaddedBlank(w1: string, s: string, w2: string)
    requires AllWs(w1) && AllWs(w2) && Trim(s) == ""
    ensures Trim(w1 + s + w2) == ""
  {
    var t := w1 + s + w2;
    BlankIffAllWs(s);
    forall k | 0 <= k < |t| ensures IsWs(t[k]) {
      if k < |w1| { assert t[k] == w1[k]; }
      else if k < |w1| + |s| { assert t[k] == s[k - |w1|]; }
      else { assert t[k] == w2[k - |w1| - |s|]; }
    }
    BlankIffAllWs(t);
  }

  lemma TrimPaddedText(w1: string, s: string, w2: string)
    requires AllWs(w1) && AllWs(w2) && Trim(s) != ""
    ensures Trim(w1 + s + w2) == Trim(s)
  {
    var t := w1 + s + w2;
    var n := LeadingWs(s);
    var r := Trim(s);
    // r sits at offset |w1| + n in t, surrounded only by whitespace
    assert t[|w1| + n..|w1| + n + |r|] == r;
    TrimAround(t, |w1| + n, |w1| + n + |r|);
  }

  /** If `t[i..j]` is non-empty, starts and ends with non-whitespace and only
      whitespace surrounds it, then it is `Trim(t)`. */
  lemma TrimAround(t: string, i: nat, j: nat)
    requires i < j <= |t|
    requires forall k :: 0 <= k < i ==> IsWs(t[k])
    requires forall k :: j <= k < |t| ==> IsWs(t[k])
    requires !IsWs(t[i]) && !IsWs(t[j - 1])
    ensures Trim(t) == t[i..j]
  {
    assert LeadingWs(t) == i;
    var r := Trim(t);
    assert r[|r| - 1] == t[i + |r| - 1];
  }

  /** `s.startsWith(p)` */
  predicate StartsWith(s: string, p: string) {
    |p| <= |s| && s[..|p|] == p
  }

  /** `s.endsWith(p)` */
  predicate EndsWith(s: string, p: string) {
    |p| <= |s| && s[|s| - |p|..] == p
  }

  predicate OccursAt(h: string, n: string, i: int) {
    0 <= i && i + |n| <= |h| && h[i..i + |n|] == n
  }

  /** `n in h` (Python) / `h.includes(n)` (JavaScript) */
  predicate Contains(h: string, n: string) {
    exists i :: 0 <= i <= |h| - |n| && OccursAt(h, n, i)
  }

  /** A substring of a string is also a substring of any extension of it. */
  lemma ContainsExtend(a: string, b: string, n: string)
    requires Contains(a, n)
    ensures Contains(a + b, n) && Contains(b + a, n)
  {
    var i :| 0 <= i <= |a| - |n| && OccursAt(a, n, i);
    assert (a + b)[i..i + |n|] == a[i..i + |n|];
    assert OccursAt(a + b, n, i);
    assert (b + a)[|b| + i..|b| + i + |n|] == a[i..i + |n|];
    assert OccursAt(b + a, n, |b| + i);
  }

  /** First index at or after `from` where `n` occurs in `h`. */
  function FindFrom(h: string, n: string, from: nat): (r: Option<nat>)
    ensures r.Some? ==> from <= r.value && OccursAt(h, n, r.value)
    ensures r.Some? ==> forall k :: from <= k < r.value ==> !OccursAt(h, n, k)
    ensures r.None? ==> forall k :: from <= k ==> !OccursAt(h, n, k)
    decreases |h| - from
  {
    if from + |n| > |h| then None
    else if h[from..from + |n|] == n then Some(from)
    else FindFrom(h, n, from + 1)
  }

  /** `s.indexOf(c)`: the first index holding `c`, or -1. */
  function IndexOf(s: string, c: char): (r: int)
    ensures -1 <= r < |s|
    ensures r == -1 <==> c !in s
    ensures r >= 0 ==> s[r] == c && c !in s[..r]
  {
    if |s| == 0 then -1
    else if s[0] == c then 0
    else
      var k := IndexOf(s[1..], c);
      if k == -1 then -1
      else
        assert s[..k + 1] == [s[0]] + s[1..][..k];
        k + 1
  }

  /** `s.lastIndexOf(c)`: the last index holding `c`, or -1. */
  function LastIndexOf(s: string, c: char): (r: int)
    ensures -1 <= r < |s|
    ensures r == -1 <==> c !in s
    ensures r >= 0 ==> s[r] == c && c !in s[r + 1..]
  {
    if |s| == 0 then -1
    else if s[|s| - 1] == c then |s| - 1
    else
      var k := LastIndexOf(s[..|s| - 1], c);
      SliceLast(s, k + 1);
      k
  }

  /** A suffix of `s` is the same suffix of its front, then its last element. */
  lemma SliceLast<T>(s: seq<T>, i: nat)
    requires i < |s|
    ensures s == s[..|s| - 1] + [s[|s| - 1]]
    ensures s[i..] == s[..|s| - 1][i..] + [s[|s| - 1]]
  {
  }

  /** Lower-casing of one character: ASCII letters and the upper-case
      letters of Latin-1. */
  function LowerChar(c: char): char {
    if 'A' <= c <= 'Z' then (c as int + 32) as char
    else if '\U{00C0}' <= c <= '\U{00DE}' && c != '\U{00D7}' then (c as int + 32) as char
    else c
  }

  /** `s.toLowerCase()` / `s.lower()` */
  function Lower(s: string): (r: string)
    ensures |r| == |s|
    ensures forall k :: 0 <= k < |s| ==> r[k] == LowerChar(s[k])
  {
    seq(|s|, k requires 0 <= k < |s| => LowerChar(s[k]))
  }

  lemma LowerConcat(a: string, b: string)
    ensures Lower(a + b) == Lower(a) + Lower(b)
  {
  }

  lemma LowerSlice(s: string, i: nat, j: nat)
    requires i <= j <= |s|
    ensures Lower(s)[i..j] == Lower(s[i..j])
  {
  }

  /** `s.split(sep)` (JavaScript and Python agree for a one-character
      separator): the pieces between the separators, in order. */
  function Split(s: string, sep: char): (r: seq<string>)
    ensures |r| >= 1
    ensures forall k :: 0 <= k < |r| ==> sep !in r[k]
    decreases |s|
  {
    var i := IndexOf(s, sep);
    if i < 0 then [s] else [s[..i]] + Split(s[i + 1..], sep)
  }

  /** `parts.join(sep)` */
  function Join(parts: seq<string>, sep: string): string {
    if |parts| == 0 then ""
    else if |parts| == 1 then parts[0]
    else parts[0] + sep + Join(parts[1..], sep)
  }

  /** Splitting and joining again on the same separator gives the input back. */
  lemma {:induction false} JoinSplit(s: string, sep: char)
    ensures Join(Split(s, sep), [sep]) == s
    decreases |s|
  {
    var i := IndexOf(s, sep);
    if i >= 0 {
      var rest := Split(s[i + 1..], sep);
      JoinSplit(s[i + 1..], sep);
      assert Split(s, sep) == [s[..i]] + rest;
      assert Join(Split(s, sep), [sep]) == s[..i] + [sep] + s[i + 1..];
      assert s == s[..i] + [sep] + s[i + 1..];
    }
  }

  /** Splitting `a + sep + b` splits `a` and `b` separately. */
  lemma {:induction false} SplitConcat(a: string, b: string, sep: char)
    requires sep !in a
    ensures Split(a + [sep] + b, sep) == [a] + Split(b, sep)
  {
    var s := a + [sep] + b;
    var i := IndexOf(s, sep);
    assert s[|a|] == sep;
    assert s[..|a|] == a;
    assert i == |a|;
    assert s[i + 1..] == b;
  }
}
