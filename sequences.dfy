/**
 * Sequence helpers shared by the pipeline: list concatenation (the
 * `x_tr = x_tr + xi` and `np.concatenate` of a list of arrays) and the
 * index and slice rules of Python lists.
 */
module Sequences {
  import opened Wrappers

  /** Concatenation of a list of lists, in order. */
  function Flatten<T>(xs: seq<seq<T>>): seq<T>
  {
    if xs == [] then [] else Flatten(xs[..|xs| - 1]) + xs[|xs| - 1]
  }

  /** Flattening two lists of lists one after the other is flattening their concatenation. */
  lemma {:induction false} FlattenAppend<T>(a: seq<seq<T>>, b: seq<seq<T>>)
    ensures Flatten(a + b) == Flatten(a) + Flatten(b)
    decreases |b|
  {
    if b == [] {
      assert a + b == a;
    } else {
      var b' := b[..|b| - 1];
      assert (a + b)[..|a + b| - 1] == a + b';
      assert (a + b)[|a + b| - 1] == b[|b| - 1];
      FlattenAppend(a, b');
    }
  }

  /** Appending one list to the list of lists appends its elements. */
  lemma FlattenSnoc<T>(xs: seq<seq<T>>, t: seq<T>)
    ensures Flatten(xs + [t]) == Flatten(xs) + t
  {
    assert (xs + [t])[..|xs|] == xs;
  }

  /** Python's `s[i]` on a list of length n: the position it reads, negative indices counting from the end. */
  function PyIndex(n: nat, i: int): (r: Option<nat>)
    ensures r.Some? <==> 0 <= n + i && i < n
    ensures r.Some? ==> r.value < n && (r.value == i || r.value == n + i)
  {
    if 0 <= i < n then Some(i)
    else if i < 0 && 0 <= n + i then Some(n + i)
    else None
  }

  /** Position i lies before the end r of a slice. */
  predicate Below(r: int, i: int) { i < r }

  /** Python's `s[0:stop]` keeps position i: a negative stop counts from the end. */
  predicate Kept(n: nat, stop: int, i: int) { i < (if stop >= 0 then stop else n + stop) }

  /** Python's effective end of the slice `s[0:stop]` on a list of length n: the slice keeps
      exactly the positions of the list that `stop` keeps. */
  function SliceStop(n: nat, stop: int): (r: nat)
    ensures r <= n
    ensures forall i :: 0 <= i < n ==> (Below(r, i) <==> Kept(n, stop, i))
  {
    if stop >= 0 then (if stop < n then stop else n)
    else if n + stop > 0 then n + stop
    else 0
  }

  /** `v` forced into the range `lo..hi`. */
  function Clamp(v: int, lo: int, hi: int): (r: int)
    requires lo <= hi
    ensures lo <= r <= hi
    ensures lo <= v <= hi ==> r == v
  {
    if v < lo then lo else if v > hi then hi else v
  }
}
