/**
 * The few Python string operations the system relies on, written out over
 * `seq<char>`: `str.strip()`, `str.split()`, `str.lower()`/`str.upper()`
 * (ASCII letters only), the `in` substring test, `str.replace(p, "")`,
 * `str.strip(chars)`, `str.count(c)`, `s[:n]` and `str(int)`.
 */
module Text {

  /** Python's `str.isspace()`: the exact list of code points it accepts. */
  predicate IsSpace(c: char) {
    || c == ' ' || c == '\t' || c == '\n' || c == '\r' || c == '\U{0B}' || c == '\U{0C}'
    || ('\U{1C}' <= c <= '\U{1F}') || c == '\U{85}' || c == '\U{A0}' || c == '\U{1680}'
    || ('\U{2000}' <= c <= '\U{200A}') || c == '\U{2028}' || c == '\U{2029}'
    || c == '\U{202F}' || c == '\U{205F}' || c == '\U{3000}'
  }

  predicate NoSpace(s: string) {
    forall i :: 0 <= i < |s| ==> !IsSpace(s[i])
  }

  /** Leading whitespace removed: the result is a suffix of `s`, and only whitespace was dropped. */
  function TrimStart(s: string): (r: string)
    ensures |r| <= |s| && r == s[|s| - |r|..]
    ensures r == [] || !IsSpace(r[0])
    ensures forall k :: 0 <= k < |s| - |r| ==> IsSpace(s[k])
  {
    if |s| > 0 && IsSpace(s[0]) then TrimStart(s[1..]) else s
  }

  /** Trailing whitespace removed: the result is a prefix of `s`, and only whitespace was dropped. */
  function TrimEnd(s: string): (r: string)
    ensures |r| <= |s| && r == s[..|r|]
    ensures r == [] || !IsSpace(r[|r| - 1])
    ensures forall k :: |r| <= k < |s| ==> IsSpace(s[k])
  {
    if |s| > 0 && IsSpace(s[|s| - 1]) then TrimEnd(s[..|s| - 1]) else s
  }

  /** Python's `s.strip()`. */
  function Strip(s: string): string {
    TrimEnd(TrimStart(s))
  }

  /** The number of whitespace characters `strip()` removes at the front. */
  function Lead(s: string): (i: nat)
    ensures i <= |s|
  {
    |s| - |TrimStart(s)|
  }

  /** `not s or not s.strip()` in Python: empty, or whitespace only. */
  predicate IsBlank(s: string) {
    Strip(s) == []
  }

  /** What `strip()` keeps is a slice of the input with whitespace, and only whitespace, around it. */
  lemma StripIsSlice(s: string)
    ensures Lead(s) + |Strip(s)| <= |s|
    ensures s[Lead(s)..Lead(s) + |Strip(s)|] == Strip(s)
    ensures forall k :: 0 <= k < Lead(s) ==> IsSpace(s[k])
    ensures forall k :: Lead(s) + |Strip(s)| <= k < |s| ==> IsSpace(s[k])
    ensures Strip(s) == [] || (!IsSpace(Strip(s)[0]) && !IsSpace(Strip(s)[|Strip(s)| - 1]))
  {
    StripKeepsSlice(s);
    StripEndsAreNotSpace(s);
  }

  /** The slice part of `StripIsSlice`: where it sits, and what follows it. */
  lemma StripKeepsSlice(s: string)
    ensures Lead(s) + |Strip(s)| <= |s|
    ensures s[Lead(s)..Lead(s) + |Strip(s)|] == Strip(s)
    ensures forall k :: Lead(s) + |Strip(s)| <= k < |s| ==> IsSpace(s[k])
  {
    SliceOfSuffix(s, Lead(s), TrimStart(s), TrimEnd(TrimStart(s)));
  }

  /** What `strip()` keeps neither starts nor ends with whitespace. */
  lemma StripEndsAreNotSpace(s: string)
    ensures Strip(s) == [] || (!IsSpace(Strip(s)[0]) && !IsSpace(Strip(s)[|Strip(s)| - 1]))
  {
    var t := TrimStart(s);
    var r := TrimEnd(t);
    if r != [] {
      assert r[0] == t[0];
    }
  }

  /**
   * A prefix `r` of the suffix `t == s[i..]`, followed in `t` by whitespace
   * only, is the slice of `s` at `i`, followed in `s` by whitespace only.
   */
  lemma SliceOfSuffix(s: string, i: nat, t: string, r: string)
    requires i <= |s| && t == s[i..] && |r| <= |t| && r == t[..|r|]
    requires forall k :: |r| <= k < |t| ==> IsSpace(t[k])
    ensures s[i..i + |r|] == r
    ensures forall k :: i + |r| <= k < |s| ==> IsSpace(s[k])
  {
    forall k | i + |r| <= k < |s|
      ensures IsSpace(s[k])
    {
      assert s[k] == t[k - i];
    }
  }

  /** A string is blank exactly when every character of it is whitespace. */
  lemma BlankIffAllSpace(s: string)
    ensures IsBlank(s) <==> forall k :: 0 <= k < |s| ==> IsSpace(s[k])
  {
    StripIsSlice(s);
    if !IsBlank(s) {
      assert s[Lead(s)] == Strip(s)[0];
    }
  }

  /** Stripping a string that neither starts nor ends with whitespace changes nothing. */
  lemma StripUnpadded(s: string)
    requires s == [] || (!IsSpace(s[0]) && !IsSpace(s[|s| - 1]))
    ensures Strip(s) == s
  {
  }

  /** `strip()` is idempotent. */
  lemma StripIdempotent(s: string)
    ensures Strip(Strip(s)) == Strip(s)
  {
    StripIsSlice(s);
    StripUnpadded(Strip(s));
  }

  // ---------------------------------------------------------------------------
  // Case mapping (ASCII letters only)

  function LowerChar(c: char): char {
    if 'A' <= c <= 'Z' then (c as int + 32) as char else c
  }

  function UpperChar(c: char): char {
    if 'a' <= c <= 'z' then (c as int - 32) as char else c
  }

  /** `s.lower()`: same length, each character mapped on its own. */
  function Lower(s: string): (r: string)
    ensures |r| == |s|
    ensures forall i :: 0 <= i < |s| ==> r[i] == LowerChar(s[i])
  {
    seq(|s|, i requires 0 <= i < |s| => LowerChar(s[i]))
  }

  /** `s.upper()`: same length, each character mapped on its own. */
  function Upper(s: string): (r: string)
    ensures |r| == |s|
    ensures forall i :: 0 <= i < |s| ==> r[i] == UpperChar(s[i])
  {
    seq(|s|, i requires 0 <= i < |s| => UpperChar(s[i]))
  }

  lemma LowerSlice(s: string, i: nat, j: nat)
    requires i <= j <= |s|
    ensures Lower(s)[i..j] == Lower(s[i..j])
  {
  }

  lemma LowerAppend(a: string, b: string)
    ensures Lower(a + b) == Lower(a) + Lower(b)
  {
  }

  // ---------------------------------------------------------------------------
  // Substring search: Python's `p in s`

  predicate StartsWith(s: string, p: string) {
    |p| <= |s| && s[..|p|] == p
  }

  /** `p` occurs in `s` starting at index `i`. */
  predicate OccursAt(s: string, p: string, i: int) {
    0 <= i && i + |p| <= |s| && s[i..i + |p|] == p
  }

  /** Python's `p in s`, by scanning the start positions left to right. */
  predicate Contains(s: string, p: string)
    decreases |s|
  {
    StartsWith(s, p) || (|s| > 0 && Contains(s[1..], p))
  }

  /** The scan agrees with the positional definition of a substring, in both directions. */
  lemma {:induction false} ContainsIffOccurs(s: string, p: string)
    ensures Contains(s, p) <==> exists i :: OccursAt(s, p, i)
    decreases |s|
  {
    if StartsWith(s, p) {
      assert OccursAt(s, p, 0);
    } else if |s| > 0 {
      ContainsIffOccurs(s[1..], p);
      if exists j :: OccursAt(s[1..], p, j) {
        var j :| OccursAt(s[1..], p, j);
        assert s[j + 1..j + 1 + |p|] == s[1..][j..j + |p|];
        assert OccursAt(s, p, j + 1);
      }
      if exists i :: OccursAt(s, p, i) {
        var i :| OccursAt(s, p, i);
        assert i != 0 by {
          assert OccursAt(s, p, i) && !StartsWith(s, p);
        }
        assert s[1..][i - 1..i - 1 + |p|] == s[i..i + |p|];
        assert OccursAt(s[1..], p, i - 1);
      }
    }
  }

  /** An occurrence inside a part is an occurrence in the whole. */
  lemma ContainsInMiddle(a: string, p: string, b: string)
    ensures Contains(a + p + b, p)
  {
    var s := a + p + b;
    assert s[|a|..|a| + |p|] == p;
    assert OccursAt(s, p, |a|);
    ContainsIffOccurs(s, p);
  }

  /** An occurrence in the tail of a string is an occurrence in the whole. */
  lemma ContainsSuffix(a: string, b: string, p: string)
    requires Contains(b, p)
    ensures Contains(a + b, p)
  {
    ContainsIffOccurs(b, p);
    var m :| OccursAt(b, p, m);
    var s := a + b;
    assert s[|a|..|s|] == b;
    OccursOutside(s, |a|, |s|, p, m);
    ContainsIffOccurs(s, p);
  }

  /** Python's `any(w in s for w in words)`. */
  predicate AnyIn(words: seq<string>, s: string) {
    |words| > 0 && (Contains(s, words[0]) || AnyIn(words[1..], s))
  }

  /** `AnyIn` holds exactly when some listed word occurs in `s`. */
  lemma {:induction false} AnyInIffSome(words: seq<string>, s: string)
    ensures AnyIn(words, s) <==> exists i :: 0 <= i < |words| && Contains(s, words[i])
  {
    if |words| > 0 {
      AnyInIffSome(words[1..], s);
      if exists i :: 0 <= i < |words| && Contains(s, words[i]) {
        var i :| 0 <= i < |words| && Contains(s, words[i]);
        if i > 0 {
          assert words[1..][i - 1] == words[i];
        }
      }
    }
  }

  /** A whitespace-free occurrence in a string padded with whitespace lies in the unpadded part. */
  lemma OccursInside(u: string, i: nat, j: nat, p: string, m: int)
    requires i <= j <= |u| && |p| > 0 && NoSpace(p) && OccursAt(u, p, m)
    requires forall k :: 0 <= k < i ==> IsSpace(u[k])
    requires forall k :: j <= k < |u| ==> IsSpace(u[k])
    ensures OccursAt(u[i..j], p, m - i)
  {
    assert u[m..m + |p|][0] == u[m];
    assert u[m..m + |p|][|p| - 1] == u[m + |p| - 1];
    assert !IsSpace(p[0]) && !IsSpace(p[|p| - 1]);
    assert !IsSpace(u[m]) && !IsSpace(u[m + |p| - 1]);
    assert i <= m && m + |p| <= j;
    var v := u[i..j];
    var a, b := v[m - i..m - i + |p|], u[m..m + |p|];
    forall k | 0 <= k < |p|
      ensures a[k] == b[k]
    {
      assert a[k] == v[m - i + k] == u[m + k];
    }
    assert a == b;
  }

  /** An occurrence in a slice is an occurrence in the whole string. */
  lemma OccursOutside(u: string, i: nat, j: nat, p: string, m: int)
    requires i <= j <= |u| && OccursAt(u[i..j], p, m)
    ensures OccursAt(u, p, i + m)
  {
    var v := u[i..j];
    var a, b := u[i + m..i + m + |p|], v[m..m + |p|];
    forall k | 0 <= k < |p|
      ensures a[k] == b[k]
    {
      assert b[k] == v[m + k] == u[i + m + k];
    }
    assert a == b;
  }

  /** Whitespace around a string neither creates nor destroys an occurrence of a whitespace-free word. */
  lemma ContainsWithinSpaces(u: string, i: nat, j: nat, p: string)
    requires i <= j <= |u| && |p| > 0 && NoSpace(p)
    requires forall k :: 0 <= k < i ==> IsSpace(u[k])
    requires forall k :: j <= k < |u| ==> IsSpace(u[k])
    ensures Contains(u, p) <==> Contains(u[i..j], p)
  {
    ContainsIffOccurs(u, p);
    ContainsIffOccurs(u[i..j], p);
    if Contains(u, p) {
      var m :| OccursAt(u, p, m);
      OccursInside(u, i, j, p, m);
    }
    if Contains(u[i..j], p) {
      var m :| OccursAt(u[i..j], p, m);
      OccursOutside(u, i, j, p, m);
    }
  }

  /** A word with a character outside the alphabet of `s` does not occur in `s`. */
  lemma NotContainsForeign(s: string, p: string, k: nat, alphabet: set<char>)
    requires k < |p| && p[k] !in alphabet
    requires forall i :: 0 <= i < |s| ==> s[i] in alphabet
    ensures !Contains(s, p)
  {
    ContainsIffOccurs(s, p);
  }

  /** An occurrence that lies within a slice is an occurrence in the slice. */
  lemma OccursInSlice(u: string, lo: nat, hi: nat, p: string, m: int)
    requires lo <= m && m + |p| <= hi <= |u| && OccursAt(u, p, m)
    ensures OccursAt(u[lo..hi], p, m - lo)
  {
    var v := u[lo..hi];
    forall k | 0 <= k < |p|
      ensures v[m - lo..m - lo + |p|][k] == p[k]
    {
      assert v[m - lo + k] == u[m + k] == u[m..m + |p|][k];
    }
    assert v[m - lo..m - lo + |p|] == p;
  }

  /**
   * Text around `b` neither creates nor destroys an occurrence of `p` when `p`
   * occurs in neither side and cannot run across a seam: the character before
   * `b` and the character after it are not in `p`.
   */
  lemma ContainsBetween(a: string, b: string, c: string, p: string)
    requires |p| > 0 && !Contains(a, p) && !Contains(c, p)
    requires |a| > 0 ==> a[|a| - 1] !in p
    requires |c| > 0 ==> c[0] !in p
    ensures Contains(a + b + c, p) <==> Contains(b, p)
  {
    var u := a + b + c;
    var i, j := |a|, |a| + |b|;
    assert u[..i] == a && u[i..j] == b && u[j..|u|] == c;
    ContainsIffOccurs(u, p);
    ContainsIffOccurs(b, p);
    if Contains(b, p) {
      var m :| OccursAt(b, p, m);
      OccursOutside(u, i, j, p, m);
    }
    if Contains(u, p) {
      var m :| OccursAt(u, p, m);
      SeamFree(u, i, j, p, m);
      if m + |p| <= i {
        OccursInSlice(u, 0, i, p, m);
        ContainsIffOccurs(a, p);
      } else if j <= m {
        OccursInSlice(u, j, |u|, p, m);
        ContainsIffOccurs(c, p);
      } else {
        OccursInSlice(u, i, j, p, m);
      }
    }
  }

  /** An occurrence of `p` cannot cover a position whose character is not in `p`. */
  lemma SeamFree(u: string, i: nat, j: nat, p: string, m: int)
    requires i <= j <= |u| && |p| > 0 && OccursAt(u, p, m)
    requires i > 0 ==> u[i - 1] !in p
    requires j < |u| ==> u[j] !in p
    ensures m + |p| <= i || j <= m || (i <= m && m + |p| <= j)
  {
  }

  lemma LowerKeepsSpace(c: char)
    ensures IsSpace(LowerChar(c)) == IsSpace(c)
  {
  }

  lemma LowerWithinSpaces(s: string, i: nat, j: nat, p: string)
    requires i <= j <= |s| && |p| > 0 && NoSpace(p)
    requires forall k :: 0 <= k < i ==> IsSpace(s[k])
    requires forall k :: j <= k < |s| ==> IsSpace(s[k])
    ensures Contains(Lower(s), p) <==> Contains(Lower(s[i..j]), p)
  {
    var u := Lower(s);
    LowerSlice(s, i, j);
    forall k | 0 <= k < i
      ensures IsSpace(u[k])
    {
      LowerKeepsSpace(s[k]);
    }
    forall k | j <= k < |u|
      ensures IsSpace(u[k])
    {
      LowerKeepsSpace(s[k]);
    }
    ContainsWithinSpaces(u, i, j, p);
  }

  /**
   * A whitespace-free word occurs in the lower-cased text exactly when it occurs
   * in the lower-cased stripped text: stripping never changes keyword matching.
   */
  lemma ContainsLowerStripped(s: string, p: string)
    requires |p| > 0 && NoSpace(p)
    ensures Contains(Lower(s), p) <==> Contains(Lower(Strip(s)), p)
  {
    StripIsSlice(s);
    var i, r := Lead(s), Strip(s);
    assert s[i..i + |r|] == r;
    LowerWithinSpaces(s, i, i + |r|, p);
  }

  /** `AnyIn` over whitespace-free keywords sees the same on the raw and the stripped text. */
  lemma {:induction false} AnyInLowerStripped(words: seq<string>, s: string)
    requires forall i :: 0 <= i < |words| ==> |words[i]| > 0 && NoSpace(words[i])
    ensures AnyIn(words, Lower(s)) <==> AnyIn(words, Lower(Strip(s)))
  {
    if |words| > 0 {
      ContainsLowerStripped(s, words[0]);
      AnyInLowerStripped(words[1..], s);
    }
  }

  // ---------------------------------------------------------------------------
  // Python's `s.split()` with no arguments

  /** The leading run of non-whitespace characters. */
  function TakeWord(s: string): (w: string)
    ensures |w| <= |s| && w == s[..|w|] && NoSpace(w)
    ensures |w| < |s| ==> IsSpace(s[|w|])
    ensures |s| > 0 && !IsSpace(s[0]) ==> |w| > 0
  {
    if |s| == 0 || IsSpace(s[0]) then [] else [s[0]] + TakeWord(s[1..])
  }

  /** `s.split()`: the maximal runs of non-whitespace characters, in order. */
  function Split(s: string): (words: seq<string>)
    ensures forall i :: 0 <= i < |words| ==> |words[i]| > 0 && NoSpace(words[i])
    decreases |s|
  {
    var t := TrimStart(s);
    if t == [] then []
    else
      var w := TakeWord(t);
      assert |w| > 0;
      [w] + Split(t[|w|..])
  }

  /**
   * The number of word starts: the non-whitespace characters that begin the
   * string or follow a whitespace character (`afterSpace` says whether the
   * character before `s` was whitespace, or absent).
   */
  function WordStarts(s: string, afterSpace: bool): nat {
    if s == [] then 0
    else (if afterSpace && !IsSpace(s[0]) then 1 else 0) + WordStarts(s[1..], IsSpace(s[0]))
  }

  /** `len(s.split())` equals the independent count of word starts. */
  lemma {:induction false} SplitCountsWordStarts(s: string)
    ensures |Split(s)| == WordStarts(s, true)
    decreases |s|
  {
    var t := TrimStart(s);
    WordStartsOfTrimmed(s);
    if t != [] {
      var rest := t[|TakeWord(t)|..];
      assert |Split(s)| == 1 + |Split(rest)|;
      WordStartsOfWord(t);
      SplitCountsWordStarts(rest);
    } else {
      assert Split(s) == [];
    }
  }

  /** Leading whitespace starts no word. */
  lemma {:induction false} WordStartsOfTrimmed(s: string)
    ensures WordStarts(s, true) == WordStarts(TrimStart(s), true)
    decreases |s|
  {
    if |s| > 0 && IsSpace(s[0]) {
      WordStartsOfTrimmed(s[1..]);
    }
  }

  /** Inside a word no word starts, up to the whitespace that ends it. */
  lemma {:induction false} WordStartsThroughWord(t: string)
    requires t != [] && !IsSpace(t[0])
    ensures WordStarts(t, false) == WordStarts(t[|TakeWord(t)|..], false)
    decreases |t|
  {
    var tail := t[1..];
    assert TakeWord(t) == [t[0]] + TakeWord(tail);
    if tail != [] && !IsSpace(tail[0]) {
      WordStartsThroughWord(tail);
      assert tail[|TakeWord(tail)|..] == t[|TakeWord(t)|..];
    } else {
      assert TakeWord(tail) == [];
    }
  }

  /** A string that starts with a word counts that word once, then the words after it. */
  lemma WordStartsOfWord(t: string)
    requires t != [] && !IsSpace(t[0])
    ensures WordStarts(t, true) == 1 + WordStarts(t[|TakeWord(t)|..], true)
  {
    WordStartsThroughWord(t);
    WordStartsAfterWord(t[|TakeWord(t)|..]);
  }

  /** At the end of a word, whether the previous character was whitespace no longer matters. */
  lemma WordStartsAfterWord(rest: string)
    requires rest == [] || IsSpace(rest[0])
    ensures WordStarts(rest, false) == WordStarts(rest, true)
  {
  }

  // ---------------------------------------------------------------------------
  // Slicing, replacing, counting

  /** Python's `s[:n]` for `n >= 0`. */
  function Take(s: string, n: nat): (r: string)
    ensures |r| == if n <= |s| then n else |s|
    ensures r == s[..|r|]
  {
    if n <= |s| then s[..n] else s
  }

  /** Python's `s.replace(p, "")`: every non-overlapping occurrence of `p`, left to right, removed. */
  function RemoveAll(s: string, p: string): (r: string)
    requires |p| > 0
    ensures |r| <= |s|
    decreases |s|
  {
    if |s| == 0 then []
    else if StartsWith(s, p) then RemoveAll(s[|p|..], p)
    else [s[0]] + RemoveAll(s[1..], p)
  }

  /** `replace` keeps every character that is not a character of the pattern. */
  lemma {:induction false} RemoveAllKeeps(s: string, p: string, c: char)
    requires |p| > 0 && c in s && c !in p
    ensures c in RemoveAll(s, p)
    decreases |s|
  {
    if StartsWith(s, p) {
      assert s == s[..|p|] + s[|p|..];
      assert c in s[|p|..];
      RemoveAllKeeps(s[|p|..], p, c);
    } else if s[0] != c {
      var i :| 0 <= i < |s| && s[i] == c;
      assert s[1..][i - 1] == c;
      RemoveAllKeeps(s[1..], p, c);
    }
  }

  /** A string in which the pattern's first character never appears is left as it is. */
  lemma {:induction false} RemoveAllAbsent(s: string, p: string)
    requires |p| > 0 && p[0] !in s
    ensures RemoveAll(s, p) == s
    decreases |s|
  {
    if |s| > 0 {
      assert !StartsWith(s, p) by {
        if |p| <= |s| {
          assert s[..|p|][0] == s[0] != p[0];
        }
      }
      assert s[0] == s[0];
      assert forall c :: c in s[1..] ==> c in s;
      RemoveAllAbsent(s[1..], p);
    }
  }

  /** Python's `s.strip(chars)`: strips characters of `cs` from both ends. */
  function StripChars(s: string, cs: set<char>): (r: string)
    ensures |r| <= |s|
    ensures forall c :: c in s && c !in cs ==> c in r
    decreases |s|
  {
    if |s| > 0 && s[0] in cs then StripChars(s[1..], cs)
    else if |s| > 0 && s[|s| - 1] in cs then StripChars(s[..|s| - 1], cs)
    else s
  }

  /** Every character other than `c`, in order. */
  function RemoveChar(s: string, c: char): (r: string)
    ensures |r| <= |s|
    ensures forall d :: d in s && d != c ==> d in r
    ensures forall d :: d in r ==> d in s && d != c
  {
    if |s| == 0 then []
    else if s[0] == c then RemoveChar(s[1..], c)
    else [s[0]] + RemoveChar(s[1..], c)
  }

  /** Python's `s.count(c)` for a single character. */
  function CountChar(s: string, c: char): (n: nat)
    ensures n <= |s|
  {
    if |s| == 0 then 0 else (if s[0] == c then 1 else 0) + CountChar(s[1..], c)
  }

  lemma {:induction false} CountCharAppend(a: string, b: string, c: char)
    ensures CountChar(a + b, c) == CountChar(a, c) + CountChar(b, c)
  {
    if |a| > 0 {
      assert (a + b)[0] == a[0];
      assert (a + b)[1..] == a[1..] + b;
      CountCharAppend(a[1..], b, c);
    } else {
      assert a + b == b;
    }
  }

  lemma {:induction false} CountCharAbsent(s: string, c: char)
    requires c !in s
    ensures CountChar(s, c) == 0
  {
    if |s| > 0 {
      assert s[0] != c;
      assert forall d :: d in s[1..] ==> d in s;
      CountCharAbsent(s[1..], c);
    }
  }

  lemma {:induction false} RemoveCharAppend(a: string, b: string, c: char)
    ensures RemoveChar(a + b, c) == RemoveChar(a, c) + RemoveChar(b, c)
  {
    if |a| > 0 {
      assert (a + b)[0] == a[0];
      assert (a + b)[1..] == a[1..] + b;
      RemoveCharAppend(a[1..], b, c);
    } else {
      assert a + b == b;
    }
  }

  lemma {:induction false} RemoveCharAbsent(s: string, c: char)
    requires c !in s
    ensures RemoveChar(s, c) == s
  {
    if |s| > 0 {
      assert s[0] != c;
      assert forall d :: d in s[1..] ==> d in s;
      RemoveCharAbsent(s[1..], c);
      assert s == [s[0]] + s[1..];
    }
  }

  /** Removing every `c` shortens the string by the number of `c`s in it. */
  lemma {:induction false} RemoveCharLength(s: string, c: char)
    ensures |RemoveChar(s, c)| == |s| - CountChar(s, c)
  {
    if |s| > 0 {
      RemoveCharLength(s[1..], c);
    }
  }

  // ---------------------------------------------------------------------------
  // Decimal rendering of integers (`str(n)`)

  function DigitChar(d: nat): char
    requires d < 10
  {
    "0123456789"[d]
  }

  /** `str(n)` for a natural number. */
  function NatToString(n: nat): (r: string)
    ensures |r| > 0
    ensures forall i :: 0 <= i < |r| ==> '0' <= r[i] <= '9'
  {
    if n < 10 then [DigitChar(n)] else NatToString(n / 10) + [DigitChar(n % 10)]
  }

  /** `str(i)` for any integer. */
  function IntToString(i: int): string {
    if i < 0 then "-" + NatToString(-i) else NatToString(i)
  }

  /** Reads a string of decimal digits back as a number: the inverse of `NatToString`. */
  function ParseDigits(s: string): nat
    requires forall i :: 0 <= i < |s| ==> '0' <= s[i] <= '9'
  {
    if |s| == 0 then 0 else 10 * ParseDigits(s[..|s| - 1]) + (s[|s| - 1] as int - '0' as int)
  }

  /** Rendering a number and reading it back gives the number: `int(str(n)) == n`. */
  lemma {:induction false} NatToStringRoundTrip(n: nat)
    ensures ParseDigits(NatToString(n)) == n
  {
    if n >= 10 {
      NatToStringRoundTrip(n / 10);
      var r := NatToString(n);
      assert r[..|r| - 1] == NatToString(n / 10);
    }
  }
}
