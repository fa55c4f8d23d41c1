/** The two list shapes market_digest.py builds: a pass over a list that keeps some
    elements and transforms them (the comprehension of `read_sources`, the entry loop
    of `fetch_rss_items`), and the concatenation of one list per element (the feed loop
    of `fetch_rss_items`). Their lemmas are proved once, for any function. */
module Sequences {

  datatype Option<T> = None | Some(value: T)

  /** The `y` for which `f(x)` is `Some(y)`, for each `x` of `xs` in order. */
  function FilterMap<A, B>(xs: seq<A>, f: A -> Option<B>): (ys: seq<B>)
    ensures |ys| <= |xs|
  {
    if xs == [] then []
    else
      var ys := FilterMap(xs[..|xs| - 1], f);
      match f(xs[|xs| - 1])
      case Some(y) => ys + [y]
      case None => ys
  }

  /** Extending the input by one element extends the result by what `f` keeps of it. */
  lemma FilterMapSnoc<A, B>(xs: seq<A>, x: A, f: A -> Option<B>)
    ensures FilterMap(xs + [x], f) == FilterMap(xs, f) + (if f(x).Some? then [f(x).value] else [])
  {
    assert (xs + [x])[..|xs|] == xs;
  }

  /** Each element of the result is what `f` made of some element `xs[i]`. */
  lemma {:induction false} FilterMapFrom<A, B>(xs: seq<A>, f: A -> Option<B>, k: nat)
    returns (i: nat)
    requires k < |FilterMap(xs, f)|
    ensures i < |xs| && f(xs[i]) == Some(FilterMap(xs, f)[k])
  {
    var n := |xs| - 1;
    var prior := FilterMap(xs[..n], f);
    if k < |prior| {
      i := FilterMapFrom(xs[..n], f, k);
      assert xs[..n][i] == xs[i];
    } else {
      i := n;
    }
  }

  /** Each element that `f` keeps is in the result. */
  lemma {:induction false} FilterMapKeeps<A, B>(xs: seq<A>, f: A -> Option<B>, i: nat)
    returns (k: nat)
    requires i < |xs| && f(xs[i]).Some?
    ensures k < |FilterMap(xs, f)| && FilterMap(xs, f)[k] == f(xs[i]).value
  {
    var n := |xs| - 1;
    if i < n {
      assert xs[..n][i] == xs[i];
      k := FilterMapKeeps(xs[..n], f, i);
    } else {
      k := |FilterMap(xs[..n], f)|;
    }
  }

  /** The pass keeps the order of its input. */
  lemma {:induction false} FilterMapAppend<A, B>(xs: seq<A>, more: seq<A>, f: A -> Option<B>)
    ensures FilterMap(xs + more, f) == FilterMap(xs, f) + FilterMap(more, f)
    decreases |more|
  {
    if more == [] {
      assert xs + more == xs;
    } else {
      var n := |more| - 1;
      assert (xs + more)[..|xs + more| - 1] == xs + more[..n];
      assert (xs + more)[|xs + more| - 1] == more[n];
      FilterMapAppend(xs, more[..n], f);
    }
  }

  /** The pass over two elements. */
  lemma FilterMapPair<A, B>(x: A, y: A, f: A -> Option<B>)
    ensures FilterMap([x, y], f)
         == (if f(x).Some? then [f(x).value] else []) + (if f(y).Some? then [f(y).value] else [])
  {
    assert [x, y][..1] == [x];
    assert [x][..0] == [];
  }

  /** The concatenation of two parts. */
  lemma ConcatPair<A, B>(x: A, y: A, f: A -> seq<B>)
    ensures Concat([x, y], f) == f(x) + f(y)
  {
    assert [x, y][..1] == [x];
    assert [x][..0] == [];
    assert Concat([x], f) == [] + f(x) == f(x);
  }

  /** A pass that keeps every element unchanged returns its input. */
  lemma {:induction false} FilterMapKeepsAll<A>(xs: seq<A>, f: A -> Option<A>)
    requires forall k :: 0 <= k < |xs| ==> f(xs[k]) == Some(xs[k])
    ensures FilterMap(xs, f) == xs
  {
    if xs != [] {
      var n := |xs| - 1;
      assert forall k :: 0 <= k < n ==> xs[..n][k] == xs[k];
      FilterMapKeepsAll(xs[..n], f);
      Snoc(xs);
    }
  }

  /** The first `i + 1` elements are the first `i` and then element `i`. */
  lemma TakeOneMore<T>(s: seq<T>, i: nat)
    requires i < |s|
    ensures s[..i + 1] == s[..i] + [s[i]]
  {
  }

  /** A non-empty sequence is its front followed by its last element. */
  lemma Snoc<T>(s: seq<T>)
    requires s != []
    ensures s == s[..|s| - 1] + [s[|s| - 1]]
  {
  }

  lemma AppendOne<T>(a: seq<T>, b: seq<T>, x: T)
    ensures a + b + [x] == a + (b + [x])
  {
  }

  /** `f(xs[0]) + f(xs[1]) + ...`. */
  function Concat<A, B>(xs: seq<A>, f: A -> seq<B>): seq<B> {
    if xs == [] then [] else Concat(xs[..|xs| - 1], f) + f(xs[|xs| - 1])
  }

  /** Each element of the concatenation is element `m` of the part of `xs[j]`. */
  lemma {:induction false} ConcatFrom<A, B>(xs: seq<A>, f: A -> seq<B>, k: nat) returns (j: nat, m: nat)
    requires k < |Concat(xs, f)|
    ensures j < |xs| && m < |f(xs[j])| && Concat(xs, f)[k] == f(xs[j])[m]
  {
    var n := |xs| - 1;
    var prior := Concat(xs[..n], f);
    if k < |prior| {
      j, m := ConcatFrom(xs[..n], f, k);
      assert xs[..n][j] == xs[j];
    } else {
      j, m := n, k - |prior|;
    }
  }

  /** Each element of each part is in the concatenation. */
  lemma {:induction false} ConcatKeeps<A, B>(xs: seq<A>, f: A -> seq<B>, j: nat, m: nat) returns (k: nat)
    requires j < |xs| && m < |f(xs[j])|
    ensures k < |Concat(xs, f)| && Concat(xs, f)[k] == f(xs[j])[m]
  {
    var n := |xs| - 1;
    var prior := Concat(xs[..n], f);
    if j < n {
      assert xs[..n][j] == xs[j];
      k := ConcatKeeps(xs[..n], f, j, m);
    } else {
      k := |prior| + m;
    }
  }

  /** The concatenation keeps the order of the parts. */
  lemma {:induction false} ConcatAppend<A, B>(xs: seq<A>, more: seq<A>, f: A -> seq<B>)
    ensures Concat(xs + more, f) == Concat(xs, f) + Concat(more, f)
    decreases |more|
  {
    if more == [] {
      assert xs + more == xs;
    } else {
      var n := |more| - 1;
      assert (xs + more)[..|xs + more| - 1] == xs + more[..n];
      assert (xs + more)[|xs + more| - 1] == more[n];
      ConcatAppend(xs, more[..n], f);
    }
  }
}
