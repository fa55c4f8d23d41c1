/** Python built-in behaviour that market_digest.py relies on: `str.strip()` with no
    argument and the prefix slice `s[:n]`.
    Strings are sequences of Unicode scalar values, as Python's `str` is a sequence of
    code points. */
module PyText {

  /** The characters for which Python's `str.isspace()` holds, which are the ones
      `str.strip()` with no argument removes: U+0009..U+000D, U+001C..U+0020, U+0085,
      U+00A0, U+1680, U+2000..U+200A, U+2028, U+2029, U+202F, U+205F and U+3000. */
  const Whitespace: set<char> :=
    {
      '\U{9}', '\U{A}', '\U{B}', '\U{C}', '\U{D}', '\U{1C}', '\U{1D}', '\U{1E}',
      '\U{1F}', '\U{20}', '\U{85}', '\U{A0}', '\U{1680}', '\U{2000}', '\U{2001}',
      '\U{2002}', '\U{2003}', '\U{2004}', '\U{2005}', '\U{2006}', '\U{2007}',
      '\U{2008}', '\U{2009}', '\U{200A}', '\U{2028}', '\U{2029}', '\U{202F}',
      '\U{205F}', '\U{3000}'
    }

  predicate IsSpace(c: char) {
    c in Whitespace
  }

  /** Every character of `s` is whitespace. */
  predicate AllSpace(s: string) {
    forall i :: 0 <= i < |s| ==> IsSpace(s[i])
  }

  /** Neither end of `s` is whitespace (vacuously true of the empty string). */
  predicate Trimmed(s: string) {
    s == [] || (!IsSpace(s[0]) && !IsSpace(s[|s| - 1]))
  }

  /** `s.lstrip()`: the longest suffix of `s` that does not start with whitespace
      (TrimLeftCutsSpace: what it cuts is whitespace). */
  function TrimLeft(s: string): (r: string)
    ensures |r| <= |s| && r == s[|s| - |r|..]
    ensures r == [] || !IsSpace(r[0])
  {
    if s == [] || !IsSpace(s[0]) then s else TrimLeft(s[1..])
  }

  lemma {:induction false} TrimLeftCutsSpace(s: string)
    ensures forall i :: 0 <= i < |s| - |TrimLeft(s)| ==> IsSpace(s[i])
  {
    if s != [] && IsSpace(s[0]) {
      TrimLeftCutsSpace(s[1..]);
      assert forall i :: 1 <= i < |s| ==> s[i] == s[1..][i - 1];
    }
  }

  /** `s.rstrip()`: the longest prefix of `s` that does not end in whitespace
      (TrimRightCutsSpace: what it cuts is whitespace). */
  function TrimRight(s: string): (r: string)
    ensures |r| <= |s| && r == s[..|r|]
    ensures r == [] || !IsSpace(r[|r| - 1])
  {
    if s == [] || !IsSpace(s[|s| - 1]) then s else TrimRight(s[..|s| - 1])
  }

  lemma {:induction false} TrimRightCutsSpace(s: string)
    ensures forall i :: |TrimRight(s)| <= i < |s| ==> IsSpace(s[i])
  {
    if s != [] && IsSpace(s[|s| - 1]) {
      TrimRightCutsSpace(s[..|s| - 1]);
      assert forall i :: 0 <= i < |s| - 1 ==> s[i] == s[..|s| - 1][i];
    }
  }

  /** `s.strip()`: `s` with leading and trailing whitespace removed; neither end of
      the result is whitespace. StripSplits, StripUnique and StripEmpty below say which
      piece of `s` it is. */
  function Strip(s: string): (r: string)
    ensures |r| <= |s| && Trimmed(r)
  {
    TrimRight(TrimLeft(s))
  }

  /** Stripping leaves nothing exactly when the string is all whitespace. */
  lemma StripEmpty(s: string)
    ensures Strip(s) == [] <==> AllSpace(s)
  {
    var left := TrimLeft(s);
    TrimLeftCutsSpace(s);
    TrimRightCutsSpace(left);
    if Strip(s) == [] {
      NoLeadingSpace(left);
    } else {
      assert s[|s| - |left|] == left[0];
    }
  }

  /** A string of whitespace that does not start with whitespace is empty. */
  lemma NoLeadingSpace(s: string)
    requires s == [] || !IsSpace(s[0])
    requires AllSpace(s)
    ensures s == []
  {
  }

  /** `s` is whitespace, then its stripped form, then whitespace. */
  lemma StripSplits(s: string) returns (i: nat)
    ensures i + |Strip(s)| <= |s|
    ensures s == s[..i] + Strip(s) + s[i + |Strip(s)|..]
    ensures AllSpace(s[..i]) && AllSpace(s[i + |Strip(s)|..])
  {
    var left := TrimLeft(s);
    var r := TrimRight(left);
    TrimLeftCutsSpace(s);
    TrimRightCutsSpace(left);
    i := |s| - |left|;
    SpacePrefix(s, i);
    SliceOfSuffix(s, i, |r|);
    SpaceSuffix(s, i + |r|);
    Reassemble(s, i, r);
  }

  lemma SliceOfSuffix(s: string, i: nat, k: nat)
    requires i + k <= |s|
    ensures s[i..][..k] == s[i..i + k]
    ensures forall j :: i + k <= j < |s| ==> s[j] == s[i..][j - i]
  {
  }

  lemma SpacePrefix(s: string, hi: nat)
    requires hi <= |s|
    requires forall j :: 0 <= j < hi ==> IsSpace(s[j])
    ensures AllSpace(s[..hi])
  {
  }

  lemma SpaceSuffix(s: string, lo: nat)
    requires lo <= |s|
    requires forall j :: lo <= j < |s| ==> IsSpace(s[j])
    ensures AllSpace(s[lo..])
  {
    assert forall j :: 0 <= j < |s| - lo ==> s[lo..][j] == s[lo + j];
  }

  lemma Reassemble<T>(s: seq<T>, i: nat, r: seq<T>)
    requires i + |r| <= |s| && r == s[i..i + |r|]
    ensures s == s[..i] + r + s[i + |r|..]
  {
    assert s[i..] == r + s[i + |r|..];
    assert s == s[..i] + s[i..];
  }

  lemma {:induction false} TrimLeftUnique(pre: string, rest: string)
    requires AllSpace(pre)
    requires rest == [] || !IsSpace(rest[0])
    ensures TrimLeft(pre + rest) == rest
    decreases |pre|
  {
    if pre != [] {
      assert (pre + rest)[1..] == pre[1..] + rest;
      TrimLeftUnique(pre[1..], rest);
    } else {
      assert pre + rest == rest;
    }
  }

  lemma {:induction false} TrimRightUnique(rest: string, post: string)
    requires AllSpace(post)
    requires rest == [] || !IsSpace(rest[|rest| - 1])
    ensures TrimRight(rest + post) == rest
    decreases |post|
  {
    if post != [] {
      var s := rest + post;
      assert s[..|s| - 1] == rest + post[..|post| - 1];
      TrimRightUnique(rest, post[..|post| - 1]);
    } else {
      assert rest + post == rest;
    }
  }

  /** Whatever way `s` splits into whitespace, a piece with non-whitespace ends, and
      whitespace, that piece is `Strip(s)`. */
  lemma StripUnique(pre: string, mid: string, post: string)
    requires AllSpace(pre) && AllSpace(post) && Trimmed(mid)
    ensures Strip(pre + mid + post) == mid
  {
    assert pre + mid + post == pre + (mid + post);
    if mid == [] {
      var s := pre + post;
      assert pre + mid + post == s;
      assert forall i :: |pre| <= i < |s| ==> s[i] == post[i - |pre|];
      StripEmpty(s);
    } else {
      TrimLeftUnique(pre, mid + post);
      TrimRightUnique(mid, post);
    }
  }

  /** Stripping twice is stripping once. */
  lemma StripIdempotent(s: string)
    ensures Strip(Strip(s)) == Strip(s)
  {
    var r := Strip(s);
    assert [] + r + [] == r;
    StripUnique([], r, []);
  }

  /** The Python slice `s[:n]`: the first `n` elements when `n >= 0`, and for a negative
      `n` everything but the last `-n` elements; never an error. */
  function Prefix<T>(s: seq<T>, n: int): (r: seq<T>)
    ensures |r| <= |s| && r == s[..|r|]
    ensures 0 <= n ==> |r| == if n < |s| then n else |s|
    ensures n < 0 ==> |r| == if |s| + n < 0 then 0 else |s| + n
  {
    if 0 <= n then
      if n < |s| then s[..n] else s
    else
      if |s| + n < 0 then [] else s[..|s| + n]
  }
}
