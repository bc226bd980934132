/**
  The fragments of Python's `str` semantics that the benchmark's decision logic relies on:
  whitespace (`str.isspace`, which is also what `\s` matches in a `str` pattern), stripping,
  `splitlines`, whitespace `split`, substring search, `replace`, `int()` on a token and
  decimal rendering. Only ASCII letters are case-folded and only ASCII characters count as
  word characters (`\w`).
*/
module Text {
  import opened Common

  // ---------------------------------------------------------------------------------------
  // Character classes

  /** `str.isspace()`: the Unicode whitespace characters Python recognises. */
  predicate IsSpace(c: char) {
    var n := c as int;
    (9 <= n <= 13) || (28 <= n <= 32) || n == 0x85 || n == 0xA0 || n == 0x1680
    || (0x2000 <= n <= 0x200A) || n == 0x2028 || n == 0x2029 || n == 0x202F
    || n == 0x205F || n == 0x3000
  }

  /** The characters at which `str.splitlines()` ends a line. */
  predicate IsLineBreak(c: char) {
    var n := c as int;
    (10 <= n <= 13) || (28 <= n <= 30) || n == 0x85 || n == 0x2028 || n == 0x2029
  }

  predicate IsDigit(c: char) { '0' <= c <= '9' }

  predicate IsAsciiLetter(c: char) { ('a' <= c <= 'z') || ('A' <= c <= 'Z') }

  /** `\w`, restricted to ASCII. */
  predicate IsWord(c: char) { IsAsciiLetter(c) || IsDigit(c) || c == '_' }

  /** The character sets that the strip functions remove. */
  datatype CharClass =
    | Whitespace   // `\s`, as `str.strip()` removes
    | Markdown     // `[*_\s]`: bold/italic markers and whitespace
    | Only(c: char)

  predicate InClass(c: char, cls: CharClass) {
    match cls
    case Whitespace => IsSpace(c)
    case Markdown => c == '*' || c == '_' || IsSpace(c)
    case Only(x) => c == x
  }

  lemma LineBreakIsSpace(c: char)
    ensures IsLineBreak(c) ==> IsSpace(c)
  {
  }

  // ---------------------------------------------------------------------------------------
  // Stripping

  /** The first index in `[i, hi)` whose character is not in `cls`, or `hi`. */
  function ClassEnd(s: string, i: nat, hi: nat, cls: CharClass): (k: nat)
    requires i <= hi <= |s|
    ensures i <= k <= hi
    ensures forall j :: i <= j < k ==> InClass(s[j], cls)
    ensures k < hi ==> !InClass(s[k], cls)
    decreases hi - i
  {
    if i < hi && InClass(s[i], cls) then ClassEnd(s, i + 1, hi, cls) else i
  }

  /** The start of the run of `cls` characters that ends at `n`, not going below `lo`. */
  function ClassStart(s: string, lo: nat, n: nat, cls: CharClass): (k: nat)
    requires lo <= n <= |s|
    ensures lo <= k <= n
    ensures forall j :: k <= j < n ==> InClass(s[j], cls)
    ensures k > lo ==> !InClass(s[k - 1], cls)
    decreases n - lo
  {
    if n > lo && InClass(s[n - 1], cls) then ClassStart(s, lo, n - 1, cls) else n
  }

  /** `ClassEnd` is the only index with its two properties. */
  lemma ClassEndUnique(s: string, i: nat, hi: nat, cls: CharClass, k: nat)
    requires i <= k <= hi <= |s|
    requires forall j :: i <= j < k ==> InClass(s[j], cls)
    requires k < hi ==> !InClass(s[k], cls)
    ensures ClassEnd(s, i, hi, cls) == k
  {
  }

  /** `ClassStart` is the only index with its two properties. */
  lemma ClassStartUnique(s: string, lo: nat, n: nat, cls: CharClass, k: nat)
    requires lo <= k <= n <= |s|
    requires forall j :: k <= j < n ==> InClass(s[j], cls)
    requires k > lo ==> !InClass(s[k - 1], cls)
    ensures ClassStart(s, lo, n, cls) == k
  {
  }

  /** Drops the longest prefix whose characters are in `cls` (`str.lstrip`). */
  function LStrip(s: string, cls: CharClass): (r: string)
    ensures |r| <= |s|
    ensures forall i :: 0 <= i < |s| - |r| ==> InClass(s[i], cls)
    ensures r != [] ==> !InClass(r[0], cls)
  {
    s[ClassEnd(s, 0, |s|, cls)..]
  }

  /** Drops the longest suffix whose characters are in `cls` (`str.rstrip`). */
  function RStrip(s: string, cls: CharClass): (r: string)
    ensures |r| <= |s|
    ensures forall i :: |r| <= i < |s| ==> InClass(s[i], cls)
    ensures r != [] ==> !InClass(r[|r| - 1], cls)
  {
    s[..ClassStart(s, 0, |s|, cls)]
  }

  /** `str.strip` with a character class. */
  function StripBy(s: string, cls: CharClass): string {
    RStrip(LStrip(s, cls), cls)
  }

  /** `str.strip()` with no argument. */
  function Strip(s: string): string {
    StripBy(s, Whitespace)
  }

  /** `str.strip(c)` for a one-character argument. */
  function StripChar(s: string, c: char): string {
    StripBy(s, Only(c))
  }

  lemma RStripKeepsFirst(s: string, cls: CharClass)
    requires s != [] && !InClass(s[0], cls)
    ensures RStrip(s, cls) != [] && RStrip(s, cls)[0] == s[0]
  {
    assert s[0] == s[0];
  }

  /** Stripping leaves no character of the class at either end. */
  lemma {:induction false} StripByEnds(s: string, cls: CharClass)
    ensures var r := StripBy(s, cls); r != [] ==> !InClass(r[0], cls) && !InClass(r[|r| - 1], cls)
  {
    var l := LStrip(s, cls);
    if l != [] {
      RStripKeepsFirst(l, cls);
    }
  }

  lemma LStripNoop(s: string, cls: CharClass)
    requires s == [] || !InClass(s[0], cls)
    ensures LStrip(s, cls) == s
  {
  }

  lemma RStripNoop(s: string, cls: CharClass)
    requires s == [] || !InClass(s[|s| - 1], cls)
    ensures RStrip(s, cls) == s
  {
  }

  /** Stripping twice is stripping once. */
  lemma {:induction false} StripByIdempotent(s: string, cls: CharClass)
    ensures StripBy(StripBy(s, cls), cls) == StripBy(s, cls)
  {
    var r := StripBy(s, cls);
    StripByEnds(s, cls);
    LStripNoop(r, cls);
    RStripNoop(r, cls);
  }

  /** Characters of the class in front of a string are stripped with its own leading ones. */
  lemma LStripSkipsPrefix(m: string, s: string, cls: CharClass)
    requires forall i :: 0 <= i < |m| ==> InClass(m[i], cls)
    ensures LStrip(m + s, cls) == LStrip(s, cls)
  {
    var k := ClassEnd(s, 0, |s|, cls);
    var ms := m + s;
    forall j | 0 <= j < |m| + k ensures InClass(ms[j], cls) {
      if j >= |m| {
        assert ms[j] == s[j - |m|];
      }
    }
    if |m| + k < |ms| {
      assert ms[|m| + k] == s[k];
    }
    ClassEndUnique(ms, 0, |ms|, cls, |m| + k);
    assert ms[|m| + k..] == s[k..];
  }

  /** A string with no character of the class at either end is left unchanged. */
  lemma StripByNoop(s: string, cls: CharClass)
    requires s != [] ==> !InClass(s[0], cls) && !InClass(s[|s| - 1], cls)
    ensures StripBy(s, cls) == s
  {
    LStripNoop(s, cls);
    RStripNoop(s, cls);
  }

  /** Characters of the class around a string with no such character at its ends are stripped. */
  lemma StripByWrapped(m: string, x: string, m2: string, cls: CharClass)
    requires forall i :: 0 <= i < |m| ==> InClass(m[i], cls)
    requires forall i :: 0 <= i < |m2| ==> InClass(m2[i], cls)
    requires x != [] && !InClass(x[0], cls) && !InClass(x[|x| - 1], cls)
    ensures StripBy(m + x + m2, cls) == x
  {
    var s := m + x + m2;
    forall j | 0 <= j < |m| ensures InClass(s[j], cls) {
      assert s[j] == m[j];
    }
    assert s[|m|] == x[0];
    ClassEndUnique(s, 0, |s|, cls, |m|);
    var l := s[|m|..];
    assert l == x + m2;
    forall j | |x| <= j < |l| ensures InClass(l[j], cls) {
      assert l[j] == m2[j - |x|];
    }
    assert l[|x| - 1] == x[|x| - 1];
    ClassStartUnique(l, 0, |l|, cls, |x|);
    assert l[..|x|] == x;
  }

  /** A string made only of characters of the class strips to the empty string. */
  lemma {:induction false} StripByAll(s: string, cls: CharClass)
    requires forall i :: 0 <= i < |s| ==> InClass(s[i], cls)
    ensures StripBy(s, cls) == []
  {
  }

  /** Characters outside the removed ends are kept in order: the result is a slice of `s`. */
  lemma {:induction false} StripBySlice(s: string, cls: CharClass)
    ensures exists i, j :: 0 <= i <= j <= |s| && StripBy(s, cls) == s[i..j]
  {
    var l := LStrip(s, cls);
    var r := RStrip(l, cls);
    var i := |s| - |l|;
    assert l == s[i..];
    assert r == l[..|r|] == s[i..i + |r|];
  }

  /**
    Stripping the part `s[lo..hi]` without building it: the bounds of what is left, as
    indices into `s`. Nested strips of one line then stay windows of that line.
  */
  function StripWindow(s: string, lo: nat, hi: nat, cls: CharClass): (w: (nat, nat))
    requires lo <= hi <= |s|
    ensures lo <= w.0 <= w.1 <= hi
  {
    var a := ClassEnd(s, lo, hi, cls);
    (a, ClassStart(s, a, hi, cls))
  }

  /** Scanning a slice forwards finds the same index as scanning inside its bounds. */
  lemma ClassEndSlice(s: string, lo: nat, hi: nat, cls: CharClass)
    requires lo <= hi <= |s|
    ensures ClassEnd(s[lo..hi], 0, hi - lo, cls) == ClassEnd(s, lo, hi, cls) - lo
  {
    var t := s[lo..hi];
    var k := ClassEnd(s, lo, hi, cls);
    forall j | 0 <= j < k - lo ensures InClass(t[j], cls) {
      assert t[j] == s[lo + j];
    }
    if k < hi {
      assert t[k - lo] == s[k];
    }
    ClassEndUnique(t, 0, |t|, cls, k - lo);
  }

  /** Scanning a slice backwards finds the same index as scanning inside its bounds. */
  lemma ClassStartSlice(s: string, lo: nat, hi: nat, cls: CharClass)
    requires lo <= hi <= |s|
    ensures ClassStart(s[lo..hi], 0, hi - lo, cls) == ClassStart(s, lo, hi, cls) - lo
  {
    var t := s[lo..hi];
    var k := ClassStart(s, lo, hi, cls);
    forall j | k - lo <= j < hi - lo ensures InClass(t[j], cls) {
      assert t[j] == s[lo + j];
    }
    if k > lo {
      assert t[k - lo - 1] == s[k - 1];
    }
    ClassStartUnique(t, 0, |t|, cls, k - lo);
  }

  lemma LStripSlice(s: string, lo: nat, hi: nat, cls: CharClass)
    requires lo <= hi <= |s|
    ensures LStrip(s[lo..hi], cls) == s[ClassEnd(s, lo, hi, cls)..hi]
  {
    ClassEndSlice(s, lo, hi, cls);
    LStripSliceAt(s, lo, hi, ClassEnd(s, lo, hi, cls), cls);
  }

  lemma LStripSliceAt(s: string, lo: nat, hi: nat, k: nat, cls: CharClass)
    requires lo <= k <= hi <= |s| && ClassEnd(s[lo..hi], 0, hi - lo, cls) == k - lo
    ensures LStrip(s[lo..hi], cls) == s[k..hi]
  {
    hide ClassEnd, LStrip;
    LStripAt(s[lo..hi], k - lo, cls);
    SliceOfSlice(s, lo, hi, k);
  }

  /** Where the forward scan stops is where `LStrip` cuts. */
  lemma LStripAt(t: string, c: nat, cls: CharClass)
    requires ClassEnd(t, 0, |t|, cls) == c
    ensures c <= |t| && LStrip(t, cls) == t[c..]
  {
  }

  /** A slice of a slice is a slice of the whole. */
  lemma SliceOfSlice(s: string, lo: nat, hi: nat, k: nat)
    requires lo <= k <= hi <= |s|
    ensures s[lo..hi][k - lo..] == s[k..hi] && s[lo..hi][..k - lo] == s[lo..k]
  {
  }

  lemma RStripSlice(s: string, lo: nat, hi: nat, cls: CharClass)
    requires lo <= hi <= |s|
    ensures RStrip(s[lo..hi], cls) == s[lo..ClassStart(s, lo, hi, cls)]
  {
    var t := s[lo..hi];
    ClassStartSlice(s, lo, hi, cls);
    var k := ClassStart(s, lo, hi, cls);
    assert ClassStart(t, 0, |t|, cls) == k - lo;
    assert RStrip(t, cls) == t[..k - lo];
    hide *;
    SliceOfSlice(s, lo, hi, k);
  }

  /** The window is exactly what `StripBy` leaves of the slice. */
  lemma StripWindowSlice(s: string, lo: nat, hi: nat, cls: CharClass)
    requires lo <= hi <= |s|
    ensures var w := StripWindow(s, lo, hi, cls); StripBy(s[lo..hi], cls) == s[w.0..w.1]
  {
    LStripSlice(s, lo, hi, cls);
    RStripSlice(s, ClassEnd(s, lo, hi, cls), hi, cls);
  }

  // ---------------------------------------------------------------------------------------
  // Case folding and prefixes

  function LowerChar(c: char): char {
    if 'A' <= c <= 'Z' then (c as int + 32) as char else c
  }

  /** `str.lower()` on ASCII letters; every other character is kept. */
  function Lower(s: string): (r: string)
    ensures |r| == |s|
    ensures forall i :: 0 <= i < |s| ==> r[i] == LowerChar(s[i])
  {
    seq(|s|, i requires 0 <= i < |s| => LowerChar(s[i]))
  }

  /** A string without upper-case ASCII letters is its own lower case. */
  lemma LowerNoUpper(s: string)
    requires forall i :: 0 <= i < |s| ==> !('A' <= s[i] <= 'Z')
    ensures Lower(s) == s
  {
  }

  /** Lower-casing twice is lower-casing once. */
  lemma LowerIdempotent(s: string)
    ensures Lower(Lower(s)) == Lower(s)
  {
    LowerNoUpper(Lower(s));
  }

  predicate StartsWith(s: string, prefix: string) {
    |prefix| <= |s| && s[..|prefix|] == prefix
  }

  predicate EndsWith(s: string, suffix: string) {
    |suffix| <= |s| && s[|s| - |suffix|..] == suffix
  }

  // ---------------------------------------------------------------------------------------
  // Substring search

  predicate OccursAt(s: string, sub: string, i: nat) {
    i + |sub| <= |s| && s[i..i + |sub|] == sub
  }

  /** `str.find(sub, from)`: the first index at or after `from` where `sub` occurs. */
  function FindFrom(s: string, sub: string, from: nat): (r: Option<nat>)
    ensures r.Some? ==> from <= r.value && OccursAt(s, sub, r.value)
    ensures r.Some? ==> forall k :: from <= k < r.value ==> !OccursAt(s, sub, k)
    ensures r.None? ==> forall k: nat :: from <= k ==> !OccursAt(s, sub, k)
    decreases |s| - from
  {
    if from + |sub| > |s| then None
    else if OccursAt(s, sub, from) then Some(from)
    else FindFrom(s, sub, from + 1)
  }

  /** `sub in s`. */
  predicate Contains(s: string, sub: string) {
    FindFrom(s, sub, 0).Some?
  }

  lemma ContainsAt(s: string, sub: string, i: nat)
    requires OccursAt(s, sub, i)
    ensures Contains(s, sub)
  {
  }

  lemma ContainsWitness(s: string, sub: string) returns (i: nat)
    requires Contains(s, sub)
    ensures OccursAt(s, sub, i)
  {
    i := FindFrom(s, sub, 0).value;
  }

  /** `s.split(sep)[0]`: the text before the first occurrence of `sep` (all of `s` if none). */
  function BeforeFirst(s: string, sep: char): (r: string)
    ensures |r| <= |s|
    ensures forall i :: 0 <= i < |r| ==> r[i] != sep
    ensures |r| < |s| ==> s[|r|] == sep
  {
    if s == [] then []
    else if s[0] == sep then []
    else [s[0]] + BeforeFirst(s[1..], sep)
  }

  // ---------------------------------------------------------------------------------------
  // str.replace

  /** `s.replace(pat, rep)`: left-to-right, non-overlapping replacement. */
  function Replace(s: string, pat: string, rep: string): string
    requires pat != []
    decreases |s|
  {
    if |s| < |pat| then s
    else if s[..|pat|] == pat then rep + Replace(s[|pat|..], pat, rep)
    else [s[0]] + Replace(s[1..], pat, rep)
  }

  /** `c.replace(a, b)` for single characters. */
  function ReplaceChar(s: string, a: char, b: char): (r: string)
    ensures |r| == |s|
    ensures forall i :: 0 <= i < |s| ==> r[i] == (if s[i] == a then b else s[i])
  {
    if s == [] then [] else [if s[0] == a then b else s[0]] + ReplaceChar(s[1..], a, b)
  }

  predicate NoChar(s: string, c: char) {
    forall i :: 0 <= i < |s| ==> s[i] != c
  }

  predicate AllChar(s: string, c: char) {
    forall i :: 0 <= i < |s| ==> s[i] == c
  }

  /**
    When the replacement is made only of `*`, a star-free prefix of the result is an
    unchanged prefix of the input.
  */
  lemma {:induction false} ReplaceStarFreePrefix(s: string, pat: string, rep: string, j: nat)
    requires pat != [] && rep != [] && AllChar(rep, '*')
    requires j <= |Replace(s, pat, rep)|
    requires forall i :: 0 <= i < j ==> Replace(s, pat, rep)[i] != '*'
    ensures j <= |s| && Replace(s, pat, rep)[..j] == s[..j]
    decreases |s|
  {
    var r := Replace(s, pat, rep);
    if |s| < |pat| {
    } else if s[..|pat|] == pat {
      assert r[0] == rep[0];
    } else if j > 0 {
      var rest := Replace(s[1..], pat, rep);
      assert r == [s[0]] + rest;
      forall i | 0 <= i < j - 1 ensures rest[i] != '*' {
        assert rest[i] == r[i + 1];
      }
      ReplaceStarFreePrefix(s[1..], pat, rep, j - 1);
      assert r[..j] == [s[0]] + rest[..j - 1];
    }
  }

  /**
    Where the input does not start with `pat`, the first `m` characters of the result either
    match the input's or contain a star.
  */
  lemma FirstCharKept(s: string, pat: string, rep: string, rest: string, m: nat)
    requires pat != [] && rep != [] && AllChar(rep, '*')
    requires |pat| <= |s| && s[..|pat|] != pat
    requires rest == Replace(s[1..], pat, rep)
    requires 0 < m <= 1 + |rest|
    ensures '*' in Replace(s, pat, rep)[..m] || (m <= |s| && Replace(s, pat, rep)[..m] == s[..m])
  {
    var r := Replace(s, pat, rep);
    assert r == [s[0]] + rest;
    hide Replace;
    if forall k :: 0 <= k < m - 1 ==> rest[k] != '*' {
      ReplaceStarFreePrefix(s[1..], pat, rep, m - 1);
      hide *;
      ConsPrefix(s, rest, m);
    } else {
      var k :| 0 <= k < m - 1 && rest[k] == '*';
      assert r[..m][k + 1] == '*';
    }
  }

  /** Prefixes of `[c] + t` and `[c] + u` agree when those of `t` and `u` do. */
  lemma ConsPrefix(s: string, rest: string, m: nat)
    requires 0 < m <= |s| && m - 1 <= |rest| && rest[..m - 1] == s[1..][..m - 1]
    ensures ([s[0]] + rest)[..m] == s[..m]
  {
    assert s[..m] == [s[0]] + s[1..][..m - 1];
    assert ([s[0]] + rest)[..m] == [s[0]] + rest[..m - 1];
  }

  /** An absent substring stays absent in every suffix. */
  lemma AbsentInSuffix(s: string, x: string, d: nat)
    requires d <= |s|
    requires forall k: nat :: !OccursAt(s, x, k)
    ensures forall k: nat :: !OccursAt(s[d..], x, k)
  {
    forall k: nat ensures !OccursAt(s[d..], x, k) {
      if k + |x| <= |s| - d {
        assert s[d..][k..k + |x|] == s[k + d..k + d + |x|];
        assert !OccursAt(s, x, k + d);
      }
    }
  }

  /** Replacing a star-free `pat` by stars leaves no occurrence of `pat`. */
  lemma {:induction false} ReplaceRemoves(s: string, pat: string, rep: string, i: nat)
    requires pat != [] && NoChar(pat, '*')
    requires rep != [] && AllChar(rep, '*')
    ensures !OccursAt(Replace(s, pat, rep), pat, i)
    decreases |s|
  {
    var r := Replace(s, pat, rep);
    if |s| < |pat| {
    } else if s[..|pat|] == pat {
      var rest := Replace(s[|pat|..], pat, rep);
      assert r == rep + rest;
      if i < |rep| {
        if i + |pat| <= |r| {
          assert r[i..i + |pat|][0] == rep[i];
        }
      } else {
        ReplaceRemoves(s[|pat|..], pat, rep, i - |rep|);
        if i + |pat| <= |r| {
          assert r[i..i + |pat|] == rest[i - |rep|..i - |rep| + |pat|];
        }
      }
    } else {
      var rest := Replace(s[1..], pat, rep);
      assert r == [s[0]] + rest;
      if i == 0 {
        if |pat| <= |r| {
          FirstCharKept(s, pat, rep, rest, |pat|);
        }
      } else {
        ReplaceRemoves(s[1..], pat, rep, i - 1);
        if i + |pat| <= |r| {
          assert r[i..i + |pat|] == rest[i - 1..i - 1 + |pat|];
        }
      }
    }
  }

  /** Replacing by stars never creates an occurrence of a star-free string that was absent. */
  lemma {:induction false} ReplaceKeepsAbsent(s: string, pat: string, rep: string, x: string, i: nat)
    requires pat != [] && rep != [] && AllChar(rep, '*')
    requires x != [] && NoChar(x, '*')
    requires forall k: nat :: !OccursAt(s, x, k)
    ensures !OccursAt(Replace(s, pat, rep), x, i)
    decreases |s|
  {
    var r := Replace(s, pat, rep);
    if |s| < |pat| {
    } else if s[..|pat|] == pat {
      var rest := Replace(s[|pat|..], pat, rep);
      assert r == rep + rest;
      if i < |rep| {
        if i + |x| <= |r| {
          assert r[i..i + |x|][0] == rep[i];
        }
      } else {
        AbsentInSuffix(s, x, |pat|);
        ReplaceKeepsAbsent(s[|pat|..], pat, rep, x, i - |rep|);
        if i + |x| <= |r| {
          assert r[i..i + |x|] == rest[i - |rep|..i - |rep| + |x|];
        }
      }
    } else {
      var rest := Replace(s[1..], pat, rep);
      assert r == [s[0]] + rest;
      AbsentInSuffix(s, x, 1);
      if i == 0 {
        if |x| <= |r| {
          FirstCharKept(s, pat, rep, rest, |x|);
          if '*' in r[..|x|] {
            var k :| 0 <= k < |x| && r[..|x|][k] == '*';
            assert x[k] != '*';
          } else {
            assert !OccursAt(s, x, 0);
          }
        }
      } else {
        ReplaceKeepsAbsent(s[1..], pat, rep, x, i - 1);
        if i + |x| <= |r| {
          assert r[i..i + |x|] == rest[i - 1..i - 1 + |x|];
        }
      }
    }
  }

  // ---------------------------------------------------------------------------------------
  // str.splitlines()

  /** Index of the first line break at or after `i`, or `|s|`. */
  function BreakFrom(s: string, i: nat): (k: nat)
    requires i <= |s|
    ensures i <= k <= |s|
    ensures forall j :: i <= j < k ==> !IsLineBreak(s[j])
    ensures k < |s| ==> IsLineBreak(s[k])
    decreases |s| - i
  {
    if i == |s| || IsLineBreak(s[i]) then i else BreakFrom(s, i + 1)
  }

  /** Length of the line boundary that starts at `k` (`\r\n` counts as one boundary). */
  function BoundaryLength(s: string, k: nat): nat
    requires k < |s|
  {
    if s[k] == '\r' && k + 1 < |s| && s[k + 1] == '\n' then 2 else 1
  }

  predicate NoLineBreak(s: string) {
    forall i :: 0 <= i < |s| ==> !IsLineBreak(s[i])
  }

  /** `str.splitlines()`: lines without their terminators; no trailing empty line. */
  function SplitLines(s: string): (lines: seq<string>)
    ensures forall l :: l in lines ==> NoLineBreak(l)
    decreases |s|
  {
    if s == [] then []
    else
      var k := BreakFrom(s, 0);
      if k == |s| then [s]
      else [s[..k]] + SplitLines(s[k + BoundaryLength(s, k)..])
  }

  /** A line followed by `\n` is split off from the rest. */
  lemma SplitLinesCons(line: string, rest: string)
    requires NoLineBreak(line)
    ensures SplitLines(line + "\n" + rest) == [line] + SplitLines(rest)
  {
    var s := line + "\n" + rest;
    assert s[|line|] == '\n';
    assert forall j :: 0 <= j < |line| ==> s[j] == line[j];
    BreakFromUnique(s, 0, |line|);
    assert BoundaryLength(s, |line|) == 1;
    assert SplitLines(s) == [s[..|line|]] + SplitLines(s[|line| + 1..]);
    hide *;
    assert s[..|line|] == line;
    assert s[|line| + 1..] == rest;
  }

  /** A line break at `k` with none before it from `i` is where the scan stops. */
  lemma {:induction false} BreakFromUnique(s: string, i: nat, k: nat)
    requires i <= k < |s| && IsLineBreak(s[k])
    requires forall j :: i <= j < k ==> !IsLineBreak(s[j])
    ensures BreakFrom(s, i) == k
    decreases k - i
  {
    if i < k {
      BreakFromUnique(s, i + 1, k);
    }
  }

  /** A text without line breaks is one line (or none, when empty). */
  lemma SplitLinesSingle(line: string)
    requires NoLineBreak(line)
    ensures SplitLines(line) == if line == [] then [] else [line]
  {
  }

  // ---------------------------------------------------------------------------------------
  // str.split() (no argument)

  /** Index of the first whitespace character at or after `i`, or `|s|`. */
  function SpaceFrom(s: string, i: nat): (k: nat)
    requires i <= |s|
    ensures i <= k <= |s|
    ensures forall j :: i <= j < k ==> !IsSpace(s[j])
    ensures k < |s| ==> IsSpace(s[k])
    decreases |s| - i
  {
    if i == |s| || IsSpace(s[i]) then i else SpaceFrom(s, i + 1)
  }

  predicate NonSpaceRun(w: string) {
    w != [] && forall i :: 0 <= i < |w| ==> !IsSpace(w[i])
  }

  /** `str.split()`: the maximal runs of non-whitespace characters. */
  function Words(s: string): (ws: seq<string>)
    ensures forall w :: w in ws ==> NonSpaceRun(w)
    decreases |s|
  {
    if s == [] then []
    else if IsSpace(s[0]) then Words(s[1..])
    else
      var k := SpaceFrom(s, 0);
      [s[..k]] + Words(s[k..])
  }

  // ---------------------------------------------------------------------------------------
  // Numbers

  function DigitValue(c: char): nat
    requires IsDigit(c)
  {
    c as int - '0' as int
  }

  /** The value of a non-empty run of decimal digits. */
  function DigitsValue(ds: string): nat
    requires forall i :: 0 <= i < |ds| ==> IsDigit(ds[i])
    decreases |ds|
  {
    if ds == [] then 0 else DigitsValue(ds[..|ds| - 1]) * 10 + DigitValue(ds[|ds| - 1])
  }

  /** Index just past the longest run of digits that starts at `i`. */
  function DigitsFrom(s: string, i: nat): (k: nat)
    requires i <= |s|
    ensures i <= k <= |s|
    ensures forall j :: i <= j < k ==> IsDigit(s[j])
    ensures k < |s| ==> !IsDigit(s[k])
    decreases |s| - i
  {
    if i == |s| || !IsDigit(s[i]) then i else DigitsFrom(s, i + 1)
  }

  /**
    Digits with single underscores between them, as Python's `int()` accepts
    (`1_000`); returns the digits with the underscores removed.
  */
  function GroupedDigits(s: string): (r: Option<string>)
    ensures r.Some? ==> r.value != [] && forall i :: 0 <= i < |r.value| ==> IsDigit(r.value[i])
    decreases |s|
  {
    if s == [] || !IsDigit(s[0]) then None
    else if |s| == 1 then Some(s)
    else if s[1] == '_' then
      match GroupedDigits(s[2..])
      case Some(rest) => Some([s[0]] + rest)
      case None => None
    else
      match GroupedDigits(s[1..])
      case Some(rest) => Some([s[0]] + rest)
      case None => None
  }

  /** Python's `int(token)` for a token without surrounding whitespace; `None` is a `ValueError`. */
  function ParseInt(tok: string): Option<int> {
    if tok != [] && (tok[0] == '+' || tok[0] == '-') then
      match GroupedDigits(tok[1..])
      case Some(ds) => Some(if tok[0] == '-' then -(DigitsValue(ds) as int) else DigitsValue(ds))
      case None => None
    else
      match GroupedDigits(tok)
      case Some(ds) => Some(DigitsValue(ds))
      case None => None
  }

  function DigitChar(d: nat): char
    requires d < 10
  {
    ('0' as int + d) as char
  }

  /** `str(n)` for a natural number. */
  function NatToString(n: nat): (r: string)
    ensures r != [] && forall i :: 0 <= i < |r| ==> IsDigit(r[i])
    decreases n
  {
    if n < 10 then [DigitChar(n)] else NatToString(n / 10) + [DigitChar(n % 10)]
  }

  /** `str(i)` for an integer. */
  function IntToString(i: int): string {
    if i < 0 then "-" + NatToString(-i) else NatToString(i)
  }

  lemma {:induction false} NatToStringRoundTrip(n: nat)
    ensures DigitsValue(NatToString(n)) == n
    decreases n
  {
    var r := NatToString(n);
    if n >= 10 {
      NatToStringRoundTrip(n / 10);
      assert r[..|r| - 1] == NatToString(n / 10);
    }
  }

  // ---------------------------------------------------------------------------------------
  // Joining

  /** `sep.join(parts)`. */
  function Join(parts: seq<string>, sep: string): string
    decreases |parts|
  {
    if parts == [] then ""
    else if |parts| == 1 then parts[0]
    else parts[0] + sep + Join(parts[1..], sep)
  }
}
