/** The Python `str` operations the page relies on, modelled on Dafny strings.
    A Python string is a sequence of code points; here it is a `string`
    (a sequence of Unicode scalar values). */
module PyStr {

  /** `c.isspace()`: the code points Python treats as whitespace, which is
      what `str.strip()` with no argument removes. */
  predicate IsSpace(c: char) {
    var n := c as int;
    || 0x09 <= n <= 0x0D
    || 0x1C <= n <= 0x20
    || n == 0x85 || n == 0xA0 || n == 0x1680
    || 0x2000 <= n <= 0x200A
    || n == 0x2028 || n == 0x2029 || n == 0x202F || n == 0x205F || n == 0x3000
  }

  /** The 29 whitespace code points of Python's `str.isspace()`, one by one. */
  const PythonWhitespace: set<char> := {
    '\U{9}', '\U{A}', '\U{B}', '\U{C}', '\U{D}',
    '\U{1C}', '\U{1D}', '\U{1E}', '\U{1F}', '\U{20}',
    '\U{85}', '\U{A0}', '\U{1680}',
    '\U{2000}', '\U{2001}', '\U{2002}', '\U{2003}', '\U{2004}', '\U{2005}',
    '\U{2006}', '\U{2007}', '\U{2008}', '\U{2009}', '\U{200A}',
    '\U{2028}', '\U{2029}', '\U{202F}', '\U{205F}', '\U{3000}'
  }

  /** `IsSpace` holds of exactly the listed code points; in particular the
      characters of the code-block markers are not whitespace. */
  lemma IsSpaceIsPythonWhitespace(c: char)
    ensures IsSpace(c) <==> c in PythonWhitespace
    ensures c in "`json" ==> !IsSpace(c)
  {
  }

  /** `s.startswith(p)` */
  predicate StartsWith(s: string, p: string): (b: bool)
    ensures b <==> |p| <= |s| && forall k :: 0 <= k < |p| ==> s[k] == p[k]
  {
    |p| <= |s| && s[..|p|] == p
  }

  /** `s.endswith(p)` */
  predicate EndsWith(s: string, p: string): (b: bool)
    ensures b <==> |p| <= |s| && forall k :: 0 <= k < |p| ==> s[|s| - |p| + k] == p[k]
  {
    |p| <= |s| && s[|s| - |p|..] == p
  }

  /** `p` occurs in `s` starting at index `k`. */
  predicate OccursAt(s: string, p: string, k: int) {
    0 <= k && k + |p| <= |s| && s[k..k + |p|] == p
  }

  /** An occurrence at `k > 0` is an occurrence at `k - 1` in the tail. */
  lemma OccursAtTail(s: string, p: string, k: int)
    requires 1 <= k <= |s|
    ensures OccursAt(s, p, k) <==> OccursAt(s[1..], p, k - 1)
  {
    if k + |p| <= |s| {
      assert s[1..][k - 1..k - 1 + |p|] == s[k..k + |p|];
    }
  }

  /** `s.find(p)`: the lowest index at which `p` occurs in `s`, or -1. */
  function Find(s: string, p: string): (r: int)
    ensures -1 <= r <= |s|
    ensures r >= 0 ==> OccursAt(s, p, r)
    ensures r >= 0 ==> forall k :: 0 <= k < r ==> !OccursAt(s, p, k)
    ensures r == -1 <==> forall k :: 0 <= k <= |s| ==> !OccursAt(s, p, k)
  {
    if |s| < |p| then -1
    else if s[..|p|] == p then assert OccursAt(s, p, 0); 0
    else
      var r := Find(s[1..], p);
      assert forall k :: 1 <= k <= |s| ==> (OccursAt(s, p, k) <==> OccursAt(s[1..], p, k - 1)) by {
        forall k | 1 <= k <= |s| ensures OccursAt(s, p, k) <==> OccursAt(s[1..], p, k - 1) {
          OccursAtTail(s, p, k);
        }
      }
      if r < 0 then -1 else r + 1
  }

  /** `s.replace(pat, repl, 1)`: the first occurrence of `pat`, if any, is
      replaced by `repl`; without an occurrence `s` is returned unchanged. */
  function ReplaceFirst(s: string, pat: string, repl: string): (r: string)
    ensures Find(s, pat) < 0 ==> r == s
    ensures Find(s, pat) >= 0 ==> |r| == |s| - |pat| + |repl|
    ensures Find(s, pat) >= 0 ==>
      var i := Find(s, pat);
      r[..i] == s[..i] && r[i..i + |repl|] == repl && r[i + |repl|..] == s[i + |pat|..]
  {
    var i := Find(s, pat);
    if i < 0 then s else s[..i] + repl + s[i + |pat|..]
  }

  /** `s[:stop]`: a negative `stop` counts from the end; the bound is then
      clamped to the string. */
  function SliceTo(s: string, stop: int): (r: string)
    ensures |r| <= |s| && r == s[..|r|]
    ensures stop < 0 && -stop <= |s| ==> |r| == |s| + stop
    ensures stop < 0 && -stop > |s| ==> r == []
    ensures stop >= 0 ==> |r| == if stop <= |s| then stop else |s|
  {
    var end := if stop < 0 then stop + |s| else stop;
    var clamped := if end < 0 then 0 else if end > |s| then |s| else end;
    s[..clamped]
  }

  /** Number of whitespace characters at the start of `s`. */
  function LeadingSpace(s: string): (n: nat)
    ensures n <= |s|
    ensures forall k :: 0 <= k < n ==> IsSpace(s[k])
    ensures n < |s| ==> !IsSpace(s[n])
  {
    if s == [] || !IsSpace(s[0]) then 0 else 1 + LeadingSpace(s[1..])
  }

  /** Number of whitespace characters at the end of `s`. */
  function TrailingSpace(s: string): (n: nat)
    ensures n <= |s|
    ensures forall k :: |s| - n <= k < |s| ==> IsSpace(s[k])
    ensures n < |s| ==> !IsSpace(s[|s| - 1 - n])
  {
    if s == [] || !IsSpace(s[|s| - 1]) then 0 else 1 + TrailingSpace(s[..|s| - 1])
  }

  /** Neither end of `s` is whitespace. */
  predicate IsStripped(s: string) {
    s == [] || (!IsSpace(s[0]) && !IsSpace(s[|s| - 1]))
  }

  /** `s.strip()`: whitespace removed from both ends. */
  function Strip(s: string): (r: string)
    ensures IsStripped(r)
    ensures |r| <= |s|
  {
    var i := LeadingSpace(s);
    var t := s[i..];
    t[..|t| - TrailingSpace(t)]
  }

  /** `Strip(s)` is the slice `s[i..j]` between a run of whitespace at the
      front and a run of whitespace at the back. Together with
      `IsStripped(Strip(s))` this determines the result. */
  lemma StripIsSlice(s: string) returns (i: nat, j: nat)
    ensures i <= j <= |s| && Strip(s) == s[i..j]
    ensures forall k :: 0 <= k < i ==> IsSpace(s[k])
    ensures forall k :: j <= k < |s| ==> IsSpace(s[k])
  {
    i := LeadingSpace(s);
    var t := s[i..];
    var n := TrailingSpace(t);
    j := |s| - n;
    assert t[..|t| - n] == s[i..j];
    forall k | j <= k < |s| ensures IsSpace(s[k]) {
      assert s[k] == t[k - i];
    }
  }

  /** Stripping removes only whitespace: no other character is ever lost. */
  lemma StripKeepsNonSpace(s: string, k: nat)
    requires k < |s| && !IsSpace(s[k])
    ensures exists m :: 0 <= m < |Strip(s)| && Strip(s)[m] == s[k]
  {
    var i, j := StripIsSlice(s);
    assert Strip(s)[k - i] == s[k];
  }

  /** A string with no whitespace at either end is left as it is. */
  lemma StripStrippedIsIdentity(s: string)
    requires IsStripped(s)
    ensures Strip(s) == s
  {
    var i, j := StripIsSlice(s);
    if s != [] {
      assert !IsSpace(s[0]) && !IsSpace(s[|s| - 1]);
    }
  }

  /** Whitespace around a stripped, non-empty text is exactly what `strip()`
      removes. */
  lemma {:induction false} StripPadding(w1: string, x: string, w2: string)
    requires x != [] && IsStripped(x)
    requires forall k :: 0 <= k < |w1| ==> IsSpace(w1[k])
    requires forall k :: 0 <= k < |w2| ==> IsSpace(w2[k])
    ensures Strip(w1 + x + w2) == x
  {
    var s := w1 + x + w2;
    var i, j := StripIsSlice(s);
    assert s[|w1|] == x[0] && s[|w1| + |x| - 1] == x[|x| - 1];
    assert forall k :: 0 <= k < |w1| ==> s[k] == w1[k];
    assert forall k :: |w1| + |x| <= k < |s| ==> s[k] == w2[k - |w1| - |x|];
    var r := Strip(s);
    assert r != [] ==> r[0] == s[i] && r[|r| - 1] == s[j - 1];
    assert i == |w1| && j == |w1| + |x|;
    assert s[i..j] == x;
  }

  /** Stripping twice is the same as stripping once. */
  lemma StripIdempotent(s: string)
    ensures Strip(Strip(s)) == Strip(s)
  {
    StripStrippedIsIdentity(Strip(s));
  }

  /** `s.replace(p, "", 1)` on a string that starts with `p` removes exactly
      that leading occurrence; later occurrences of `p` are kept. */
  lemma ReplaceFirstAtStart(s: string, p: string)
    requires StartsWith(s, p)
    ensures ReplaceFirst(s, p, "") == s[|p|..]
  {
    assert OccursAt(s, p, 0);
    assert Find(s, p) == 0;
  }

  /** `s[:-k]` on a string at least `k` long drops exactly its last `k`
      characters. */
  lemma SliceDropsLast(s: string, k: int)
    requires 0 < k <= |s|
    ensures SliceTo(s, -k) == s[..|s| - k]
  {
  }
}
