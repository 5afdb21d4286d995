/**
 * The few Python string and list operations the backend relies on, written
 * out over `seq`: `str.strip()`, slicing `s[:n]` and `s[-n:]`,
 * `str.startswith`, substring search, `s.split(sep)[1]` and `sep.join(parts)`.
 */
module PyText {
  import opened Util

  /** The characters for which Python's `str.isspace()` holds. */
  predicate IsSpace(c: char) {
    || c == ' ' || c == '\t' || c == '\n' || c == '\r' || c == '\U{000B}' || c == '\U{000C}'
    || ('\U{001C}' <= c <= '\U{001F}')
    || c == '\U{0085}' || c == '\U{00A0}' || c == '\U{1680}'
    || ('\U{2000}' <= c <= '\U{200A}')
    || c == '\U{2028}' || c == '\U{2029}' || c == '\U{202F}' || c == '\U{205F}' || c == '\U{3000}'
  }

  predicate AllSpace(s: string) {
    forall k :: 0 <= k < |s| ==> IsSpace(s[k])
  }

  /** True when `s` neither begins nor ends with whitespace. */
  predicate Unpadded(s: string) {
    s == [] || (!IsSpace(s[0]) && !IsSpace(s[|s| - 1]))
  }

  /** Number of whitespace characters at the start of `s`. */
  function LeadingSpace(s: string): (n: nat)
    ensures n <= |s|
    ensures forall k :: 0 <= k < n ==> IsSpace(s[k])
    ensures n < |s| ==> !IsSpace(s[n])
  {
    if |s| > 0 && IsSpace(s[0]) then 1 + LeadingSpace(s[1..]) else 0
  }

  /** Number of whitespace characters at the end of `s`. */
  function TrailingSpace(s: string): (n: nat)
    ensures n <= |s|
    ensures forall k :: |s| - n <= k < |s| ==> IsSpace(s[k])
    ensures n < |s| ==> !IsSpace(s[|s| - n - 1])
  {
    if |s| > 0 && IsSpace(s[|s| - 1]) then 1 + TrailingSpace(s[..|s| - 1]) else 0
  }

  /**
   * Python's `s.strip()`: the part of `s` that starts at its first
   * non-whitespace character, with only whitespace on either side of it
   * and no whitespace at either of its ends.
   */
  function Strip(s: string): (r: string)
    ensures LeadingSpace(s) + |r| <= |s|
    ensures r == s[LeadingSpace(s)..LeadingSpace(s) + |r|]
    ensures AllSpace(s[..LeadingSpace(s)]) && AllSpace(s[LeadingSpace(s) + |r|..])
    ensures Unpadded(r)
    ensures r == [] <==> AllSpace(s)
  {
    var t := s[LeadingSpace(s)..];
    var r := t[..|t| - TrailingSpace(t)];
    assert r == [] || r[0] == s[LeadingSpace(s)];
    r
  }

  /** Whatever sits between pure whitespace and has no whitespace at its ends is what `strip` returns. */
  lemma StripUnique(s: string, i: nat, r: string)
    requires i + |r| <= |s| && s[i..i + |r|] == r
    requires AllSpace(s[..i]) && AllSpace(s[i + |r|..])
    requires Unpadded(r)
    ensures Strip(s) == r
  {
    var a, q := LeadingSpace(s), Strip(s);
    assert forall k :: 0 <= k < i ==> s[..i][k] == s[k];
    assert forall k :: i + |r| <= k < |s| ==> s[i + |r|..][k - i - |r|] == s[k];
    assert forall k :: a + |q| <= k < |s| ==> s[a + |q|..][k - a - |q|] == s[k];
    if r != [] {
      assert s[i] == r[0] && s[i + |r| - 1] == r[|r| - 1];
    }
    if q != [] {
      assert s[a] == q[0] && s[a + |q| - 1] == q[|q| - 1];
    }
  }

  /** Stripping ignores any whitespace added around the text. */
  lemma StripPadded(pre: string, s: string, post: string)
    requires AllSpace(pre) && AllSpace(post)
    ensures Strip(pre + s + post) == Strip(s)
  {
    var a, r := LeadingSpace(s), Strip(s);
    var t := pre + s + post;
    var i := |pre| + a;
    assert t[i..i + |r|] == s[a..a + |r|];
    assert t[..i] == pre + s[..a];
    assert t[i + |r|..] == s[a + |r|..] + post;
    StripUnique(t, i, r);
  }

  /** `strip` is idempotent. */
  lemma StripIdempotent(s: string)
    ensures Strip(Strip(s)) == Strip(s)
  {
    var r := Strip(s);
    assert r[0..|r|] == r;
    StripUnique(r, 0, r);
  }

  /** Python's `s[:n]` for a non-negative `n`: the first min(n, |s|) elements. */
  function Take<T>(s: seq<T>, n: nat): (r: seq<T>)
    ensures |r| == Min(n, |s|)
    ensures r == s[..|r|]
  {
    if |s| <= n then s else s[..n]
  }

  /** Python's `s[-n:]` for a positive `n`: the last min(n, |s|) elements. */
  function Last<T>(s: seq<T>, n: nat): (r: seq<T>)
    requires n > 0
    ensures |r| == Min(n, |s|)
    ensures r == s[|s| - |r|..]
  {
    if |s| <= n then s else s[|s| - n..]
  }

  /** Elements before the last `n` never reach `s[-n:]`. */
  lemma LastIgnoresOlder<T>(older: seq<T>, s: seq<T>, n: nat)
    requires 0 < n <= |s|
    ensures Last(older + s, n) == Last(s, n)
  {
    assert (older + s)[|older + s| - n..] == s[|s| - n..];
  }

  /** Appending `ys` to a list widens its last-`n` window by exactly `ys`. */
  lemma LastAppend<T>(xs: seq<T>, ys: seq<T>, n: nat)
    requires n > 0
    ensures Last(xs + ys, n + |ys|) == Last(xs, n) + ys
  {
    if |xs| > n {
      assert (xs + ys)[|xs| - n..] == xs[|xs| - n..] + ys;
    }
  }

  /** Python's `s.startswith(p)`. */
  predicate StartsWith(s: string, p: string) {
    |p| <= |s| && s[..|p|] == p
  }

  /** `pat` occurs in `s` starting at index `i`. */
  predicate OccursAt(s: string, pat: string, i: nat) {
    i + |pat| <= |s| && s[i..i + |pat|] == pat
  }

  /** An occurrence inside the infix `s[a..b]` is an occurrence in `s` that ends by `b`, and back. */
  lemma OccursInInfix(s: string, pat: string, a: nat, b: nat, j: nat)
    requires a <= b <= |s|
    ensures OccursAt(s[a..b], pat, j) <==> a + j + |pat| <= b && OccursAt(s, pat, a + j)
  {
    if j + |pat| <= b - a {
      var x, y := s[a..b][j..j + |pat|], s[a + j..a + j + |pat|];
      assert forall k :: 0 <= k < |x| ==> x[k] == y[k];
    }
  }

  /** Python's `pat in s`. */
  predicate Contains(s: string, pat: string) {
    exists i: nat :: i <= |s| && OccursAt(s, pat, i)
  }

  /** Stripping cannot create an occurrence of a pattern that was not there. */
  lemma StripKeepsOut(s: string, pat: string)
    requires !Contains(s, pat)
    ensures !Contains(Strip(s), pat)
  {
    var r, a := Strip(s), LeadingSpace(s);
    forall j: nat | j <= |r|
      ensures !OccursAt(r, pat, j)
    {
      OccursInInfix(s, pat, a, a + |r|, j);
    }
  }

  /** Text free of `pat` with padding that holds none of its characters stays free of `pat`. */
  lemma ContainsPadded(pre: string, s: string, post: string, pat: string)
    requires |pat| > 0 && !Contains(s, pat)
    requires forall k :: 0 <= k < |pre| ==> pre[k] != pat[0]
    requires forall k :: 0 <= k < |post| ==> post[k] != pat[|pat| - 1]
    ensures !Contains(pre + s + post, pat)
  {
    var x := pre + s + post;
    forall j: nat | j <= |x| && OccursAt(x, pat, j)
      ensures false
    {
      assert x[j] == pat[0];
      assert x[j + |pat| - 1] == pat[|pat| - 1];
      assert |pre| <= j;
      assert j + |pat| <= |pre| + |s|;
      assert s[j - |pre|..j - |pre| + |pat|] == x[j..j + |pat|];
      assert OccursAt(s, pat, j - |pre|);
    }
  }

  /** The first index at or after `from` where `pat` occurs (Python's `s.find(pat, from)`). */
  function FindFrom(s: string, pat: string, from: nat): (r: Option<nat>)
    requires |pat| > 0
    decreases |s| - from
    ensures r.Some? ==> from <= r.value && OccursAt(s, pat, r.value)
    ensures forall j: nat :: from <= j && (r.None? || j < r.value) ==> !OccursAt(s, pat, j)
  {
    if from + |pat| > |s| then None
    else if s[from..from + |pat|] == pat then Some(from)
    else FindFrom(s, pat, from + 1)
  }

  /**
   * Python's `s.split(sep)[1]` when `sep in s`: the text after the first
   * occurrence of `sep`, up to the next occurrence or the end of `s`.
   */
  function SplitSecond(s: string, sep: string): (r: string)
    requires |sep| > 0 && Contains(s, sep)
    ensures FindFrom(s, sep, 0).Some?
    ensures var start := FindFrom(s, sep, 0).value + |sep|;
      && start + |r| <= |s| && r == s[start..start + |r|]
      && (start + |r| == |s| || OccursAt(s, sep, start + |r|))
      && forall j: nat :: start <= j < start + |r| ==> !OccursAt(s, sep, j)
  {
    var first := FindFrom(s, sep, 0);
    var start := first.value + |sep|;
    match FindFrom(s, sep, start)
    case Some(next) => s[start..next]
    case None => s[start..]
  }

  /** `s.split(sep)[1]` never contains `sep`. */
  lemma SplitSecondFree(s: string, sep: string)
    requires |sep| > 0 && Contains(s, sep)
    ensures !Contains(SplitSecond(s, sep), sep)
  {
    var r := SplitSecond(s, sep);
    var start := FindFrom(s, sep, 0).value + |sep|;
    var end := start + |r|;
    assert s[start..end] == r;
    forall j: nat | j <= |r|
      ensures !OccursAt(r, sep, j)
    {
      OccursInInfix(s, sep, start, end, j);
      if j < |r| {
        assert !OccursAt(s, sep, start + j);
      }
    }
  }

  /** When nothing after the first separator is another separator, `split(sep)[1]` is the whole tail. */
  lemma SplitSecondTail(s: string, sep: string, i: nat)
    requires |sep| > 0 && FindFrom(s, sep, 0) == Some(i)
    requires !Contains(s[i + |sep|..], sep)
    ensures Contains(s, sep)
    ensures SplitSecond(s, sep) == s[i + |sep|..]
  {
    var start := i + |sep|;
    assert OccursAt(s, sep, i);
    assert s[start..|s|] == s[start..];
    forall j: nat | start <= j
      ensures !OccursAt(s, sep, j)
    {
      OccursInInfix(s, sep, start, |s|, j - start);
    }
  }

  /** The summed lengths of `parts`. */
  function TotalLength(parts: seq<string>): nat {
    if parts == [] then 0 else |parts[0]| + TotalLength(parts[1..])
  }

  /** Python's `sep.join(parts)`: every part once, with one separator between neighbours. */
  function Join(parts: seq<string>, sep: string): (r: string)
    ensures parts == [] ==> r == ""
    ensures parts != [] ==> StartsWith(r, parts[0])
    ensures parts != [] ==> |r| == TotalLength(parts) + (|parts| - 1) * |sep|
  {
    if |parts| == 0 then ""
    else if |parts| == 1 then parts[0]
    else parts[0] + sep + Join(parts[1..], sep)
  }

  /** Joining one more part adds exactly the separator and that part at the end. */
  lemma {:induction false} JoinSnoc(parts: seq<string>, p: string, sep: string)
    requires |parts| > 0
    ensures Join(parts + [p], sep) == Join(parts, sep) + sep + p
  {
    if |parts| > 1 {
      assert (parts + [p])[1..] == parts[1..] + [p];
      JoinSnoc(parts[1..], p, sep);
    } else {
      assert (parts + [p])[1..] == [p];
    }
  }

  /** The concatenation of `f(x)` over `xs`, in order (a `+=` loop over a list). */
  function ConcatMap<T>(f: T -> string, xs: seq<T>): string {
    if xs == [] then "" else f(xs[0]) + ConcatMap(f, xs[1..])
  }

  /** One more element adds exactly its image at the end. */
  lemma ConcatMapSnoc<T>(f: T -> string, xs: seq<T>, x: T)
    ensures ConcatMap(f, xs + [x]) == ConcatMap(f, xs) + f(x)
  {
    ConcatMapAppend(f, xs, [x]);
    assert ConcatMap(f, [x]) == f(x) + ConcatMap(f, []);
  }

  /** The images of the last `n + 2` elements after appending two are those of the last `n` before, then the two. */
  lemma ConcatMapLastAppendTwo<T>(f: T -> string, xs: seq<T>, a: T, b: T, n: nat)
    requires n > 0
    ensures ConcatMap(f, Last(xs + [a, b], n + 2)) == ConcatMap(f, Last(xs, n)) + f(a) + f(b)
  {
    var window := Last(xs, n);
    LastAppend(xs, [a, b], n);
    assert window + [a, b] == window + [a] + [b];
    ConcatMapSnoc(f, window, a);
    ConcatMapSnoc(f, window + [a], b);
  }

  lemma {:induction false} ConcatMapAppend<T>(f: T -> string, xs: seq<T>, ys: seq<T>)
    ensures ConcatMap(f, xs + ys) == ConcatMap(f, xs) + ConcatMap(f, ys)
  {
    if xs == [] {
      assert xs + ys == ys;
    } else {
      assert (xs + ys)[1..] == xs[1..] + ys;
      ConcatMapAppend(f, xs[1..], ys);
    }
  }
}
