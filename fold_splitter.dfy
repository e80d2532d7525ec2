/**
 * The fold splitters `kfold` and `leave_one_out` of dl_code/utils.py.
 *
 * `x` holds one list of contigs per metagenome and `y` one label array per
 * metagenome. Both splitters decide per metagenome, never per contig, which
 * side it goes to; the training side (and the k-fold validation side) is
 * flattened into one list of contigs and one concatenated label array.
 */
module FoldSplitter {
  import opened Wrappers
  import opened Sequences

  /** The exceptions a split can end with. */
  datatype SplitError =
    | ZeroDivision      // `len(x) / k` with k == 0
    | IndexOutOfRange   // `x[idx_lo]`, `y[idx_lo]` or `y[i]` outside its list
    | EmptyConcatenate  // `np.concatenate` of an empty list of label arrays

  /** `(x_tr, x_val, y_tr, y_val)`. */
  datatype Fold<C, L> = Fold(xTr: seq<C>, xVal: seq<C>, yTr: seq<L>, yVal: seq<L>)

  function Min(a: int, b: int): int { if a < b then a else b }

  predicate InBlock(i: int, lo: int, hi: int) { lo <= i < hi }

  /** The elements of `s` whose index is outside `lo .. hi - 1`, in order: what the loops send to training. */
  function Outside<T>(s: seq<T>, lo: int, hi: int): seq<T>
    decreases |s|
  {
    if s == [] then []
    else Outside(s[..|s| - 1], lo, hi) + (if InBlock(|s| - 1, lo, hi) then [] else [s[|s| - 1]])
  }

  /** The elements of `s` whose index is inside `lo .. hi - 1`, in order. */
  function Inside<T>(s: seq<T>, lo: int, hi: int): seq<T>
    decreases |s|
  {
    if s == [] then []
    else Inside(s[..|s| - 1], lo, hi) + (if InBlock(|s| - 1, lo, hi) then [s[|s| - 1]] else [])
  }

  /** Filtering a list grown by one element. */
  lemma {:induction false} FilterSnoc<T>(s: seq<T>, t: T, lo: int, hi: int)
    ensures Outside(s + [t], lo, hi) == if InBlock(|s|, lo, hi) then Outside(s, lo, hi) else Outside(s, lo, hi) + [t]
    ensures Inside(s + [t], lo, hi) == if InBlock(|s|, lo, hi) then Inside(s, lo, hi) + [t] else Inside(s, lo, hi)
  {
    assert (s + [t])[..|s|] == s;
  }

  /** Filtering the prefix of length i + 1 of a list. */
  lemma {:induction false} FilterPrefix<T>(s: seq<T>, i: nat, lo: int, hi: int)
    requires i < |s|
    ensures Outside(s[..i + 1], lo, hi) == if InBlock(i, lo, hi) then Outside(s[..i], lo, hi) else Outside(s[..i], lo, hi) + [s[i]]
    ensures Inside(s[..i + 1], lo, hi) == if InBlock(i, lo, hi) then Inside(s[..i], lo, hi) + [s[i]] else Inside(s[..i], lo, hi)
  {
    assert s[..i + 1] == s[..i] + [s[i]];
    FilterSnoc(s[..i], s[i], lo, hi);
  }

  /** When `a .. b - 1` holds exactly the indices below n in `lo .. hi - 1`, filtering a list of
      at most n elements by index is cutting it at a and b. */
  lemma {:induction false} OutsideSlices<T>(s: seq<T>, lo: int, hi: int, a: nat, b: nat, n: nat)
    requires a <= b <= n && |s| <= n
    requires forall i :: 0 <= i < n ==> (InBlock(i, a, b) <==> InBlock(i, lo, hi))
    ensures Outside(s, lo, hi) == s[..Min(|s|, a)] + s[Min(|s|, b)..]
    decreases |s|
  {
    if s != [] {
      var m := |s| - 1;
      var p := s[..m];
      var outFront := Outside(p, lo, hi);
      OutsideSlices(p, lo, hi, a, b, n);
      assert outFront == p[..Min(m, a)] + p[Min(m, b)..];
      assert InBlock(m, a, b) <==> InBlock(m, lo, hi);
      assert Outside(s, lo, hi) == outFront + (if InBlock(m, lo, hi) then [] else [s[m]]);
      if m < a {
        assert outFront == p[..m] + [];
        assert p + [s[m]] == s;
        assert s[..|s|] + s[|s|..] == s;
      } else if m < b {
        assert outFront == p[..a] + [];
        FrontPrefix(s, a);
        assert s[..a] + s[|s|..] == s[..a];
      } else {
        assert outFront == p[..a] + p[b..];
        FrontPrefix(s, a);
        SnocSuffix(s, b);
      }
    }
  }

  /** A prefix that stops before the last element is the same prefix of the front. */
  lemma {:induction false} FrontPrefix<T>(s: seq<T>, a: nat)
    requires a < |s|
    ensures s[..|s| - 1][..a] == s[..a]
  {
  }

  /** The slice from a of a non-empty list is the slice from a of its front, then its last element. */
  lemma {:induction false} SnocSuffix<T>(s: seq<T>, a: nat)
    requires a < |s|
    ensures s[a..|s| - 1] + [s[|s| - 1]] == s[a..]
  {
  }

  /** A slice that stops before the last element is the same slice of the front. */
  lemma {:induction false} FrontSlice<T>(s: seq<T>, a: nat, b: nat)
    requires a <= b < |s|
    ensures s[..|s| - 1][a..b] == s[a..b]
  {
  }

  lemma {:induction false} InsideSlices<T>(s: seq<T>, lo: int, hi: int, a: nat, b: nat, n: nat)
    requires a <= b <= n && |s| <= n
    requires forall i :: 0 <= i < n ==> (InBlock(i, a, b) <==> InBlock(i, lo, hi))
    ensures Inside(s, lo, hi) == s[Min(|s|, a)..Min(|s|, b)]
    decreases |s|
  {
    if s != [] {
      var m := |s| - 1;
      var p := s[..m];
      var inFront := Inside(p, lo, hi);
      InsideSlices(p, lo, hi, a, b, n);
      assert inFront == p[Min(m, a)..Min(m, b)];
      assert InBlock(m, a, b) <==> InBlock(m, lo, hi);
      assert Inside(s, lo, hi) == inFront + (if InBlock(m, lo, hi) then [s[m]] else []);
      if m < a {
        assert inFront == [];
      } else if m < b {
        assert inFront == p[a..m];
        FrontSlice(s, a, m);
        SnocSuffix(s, a);
      } else {
        assert inFront == p[a..b];
        FrontSlice(s, a, b);
      }
    }
  }

  lemma {:induction false} BlockSlices<T>(s: seq<T>, lo: int, hi: int, a: nat, b: nat, n: nat)
    requires a <= b <= n && |s| <= n
    requires forall i :: 0 <= i < n ==> (InBlock(i, a, b) <==> InBlock(i, lo, hi))
    ensures Outside(s, lo, hi) == s[..Min(|s|, a)] + s[Min(|s|, b)..]
    ensures Inside(s, lo, hi) == s[Min(|s|, a)..Min(|s|, b)]
  {
    OutsideSlices(s, lo, hi, a, b, n);
    InsideSlices(s, lo, hi, a, b, n);
  }

  /** Filtering out the one index `idx` removes that element when it is a position of `s`. */
  lemma {:induction false} ExcludeOne<T>(s: seq<T>, idx: int)
    ensures Outside(s, idx, idx + 1) == if 0 <= idx < |s| then s[..idx] + s[idx + 1..] else s
  {
    var a := Clamp(idx, 0, |s|);
    var b := Clamp(idx + 1, a, |s|);
    BlockSlices(s, idx, idx + 1, a, b, |s|);
    if !(0 <= idx < |s|) {
      assert s[..Min(|s|, a)] + s[Min(|s|, b)..] == s;
    }
  }

  /** `int(n / k)`: true division, truncated toward zero. */
  function TruncDiv(n: nat, k: int): int
    requires k != 0
  {
    if k > 0 then n / k else -(n / -k)
  }

  /** The positions `a .. b - 1` of the metagenomes that `kfold` puts in validation: exactly
      those whose index `i` satisfies `lower <= i < upper`. */
  function ValidationBounds(n: nat, idxLo: int, k: int): (ab: (nat, nat))
    requires k != 0
    ensures ab.0 <= ab.1 <= n
    ensures forall i :: 0 <= i < n ==>
      (InBlock(i, ab.0, ab.1) <==> InBlock(i, idxLo * TruncDiv(n, k), (idxLo + 1) * TruncDiv(n, k)))
  {
    var lower := idxLo * TruncDiv(n, k);
    var upper := (idxLo + 1) * TruncDiv(n, k);
    var a := Clamp(lower, 0, n);
    (a, Clamp(upper, a, n))
  }

  /** What `kfold` returns: the block `a .. b - 1` is validation, everything else training,
      both in their original order. */
  function KFoldSplit<C, L>(x: seq<seq<C>>, y: seq<seq<L>>, idxLo: int, k: int): Result<Fold<C, L>, SplitError>
  {
    if k == 0 then Failure(ZeroDivision)
    else if |y| < |x| then Failure(IndexOutOfRange)
    else
      var (a, b) := ValidationBounds(|x|, idxLo, k);
      if a + (|x| - b) == 0 || b - a == 0 then Failure(EmptyConcatenate)
      else Success(Fold(Flatten(x[..a] + x[b..]), Flatten(x[a..b]), Flatten(y[..a] + y[b..|x|]), Flatten(y[a..b])))
  }

  /** Filtering parallel lists by index is cutting them at a and b, when a and b bound the same indices. */
  lemma {:induction false} SplitByFilter<C, L>(x: seq<seq<C>>, y: seq<seq<L>>, lower: int, upper: int, a: nat, b: nat)
    requires a <= b <= |x| <= |y|
    requires forall i :: 0 <= i < |x| ==> (InBlock(i, a, b) <==> InBlock(i, lower, upper))
    ensures Outside(x, lower, upper) == x[..a] + x[b..]
    ensures Inside(x, lower, upper) == x[a..b]
    ensures Outside(y[..|x|], lower, upper) == y[..a] + y[b..|x|]
    ensures Inside(y[..|x|], lower, upper) == y[a..b]
  {
    var yx := y[..|x|];
    BlockSlices(x, lower, upper, a, b, |x|);
    BlockSlices(yx, lower, upper, a, b, |x|);
    assert yx[..a] == y[..a] && yx[b..] == y[b..|x|] && yx[a..b] == y[a..b];
  }

  /** `KFoldSplit` restated with the loop's own test `i < lower or i >= upper`. */
  lemma {:induction false} KFoldByFilter<C, L>(x: seq<seq<C>>, y: seq<seq<L>>, idxLo: int, k: int)
    requires k != 0 && |x| <= |y|
    ensures var lower, upper := idxLo * TruncDiv(|x|, k), (idxLo + 1) * TruncDiv(|x|, k);
      var yx := y[..|x|];
      KFoldSplit(x, y, idxLo, k) ==
        if Outside(yx, lower, upper) == [] || Inside(yx, lower, upper) == [] then Failure(EmptyConcatenate)
        else Success(Fold(Flatten(Outside(x, lower, upper)), Flatten(Inside(x, lower, upper)),
                          Flatten(Outside(yx, lower, upper)), Flatten(Inside(yx, lower, upper))))
  {
    var (a, b) := ValidationBounds(|x|, idxLo, k);
    SplitByFilter(x, y, idxLo * TruncDiv(|x|, k), (idxLo + 1) * TruncDiv(|x|, k), a, b);
  }

  /** `kfold(x, y, idx_lo, k)`. */
  method KFold<C, L>(x: seq<seq<C>>, y: seq<seq<L>>, idxLo: int, k: int) returns (r: Result<Fold<C, L>, SplitError>)
    ensures r == KFoldSplit(x, y, idxLo, k)
  {
    if k == 0 {
      return Failure(ZeroDivision);
    }
    var metaPerFold := TruncDiv(|x|, k);
    var lower := idxLo * metaPerFold;
    var upper := (idxLo + 1) * metaPerFold;
    var xTr: seq<C>, xVal: seq<C> := [], [];
    var yTr: seq<seq<L>>, yVal: seq<seq<L>> := [], [];
    ghost var trParts: seq<seq<C>>, valParts: seq<seq<C>> := [], [];
    var i := 0;
    while i < |x|
      invariant i <= |x| && i <= |y|
      invariant trParts == Outside(x[..i], lower, upper) && xTr == Flatten(trParts)
      invariant yTr == Outside(y[..i], lower, upper)
      invariant valParts == Inside(x[..i], lower, upper) && xVal == Flatten(valParts)
      invariant yVal == Inside(y[..i], lower, upper)
    {
      if i >= |y| {
        return Failure(IndexOutOfRange);
      }
      FilterPrefix(x, i, lower, upper);
      FilterPrefix(y, i, lower, upper);
      if i < lower || i >= upper {
        FlattenSnoc(trParts, x[i]);
        trParts := trParts + [x[i]];
        xTr := xTr + x[i];
        yTr := yTr + [y[i]];
      } else {
        FlattenSnoc(valParts, x[i]);
        valParts := valParts + [x[i]];
        xVal := xVal + x[i];
        yVal := yVal + [y[i]];
      }
      i := i + 1;
    }
    assert x[..i] == x && y[..i] == y[..|x|];
    KFoldByFilter(x, y, idxLo, k);
    if yTr == [] {
      return Failure(EmptyConcatenate);
    }
    if yVal == [] {
      return Failure(EmptyConcatenate);
    }
    return Success(Fold(xTr, xVal, Flatten(yTr), Flatten(yVal)));
  }

  /** What `leave_one_out` returns. Python indexing: a negative `idx_lo` reads from the end
      for the validation side, but no loop index equals it, so nothing is left out of training. */
  function LeaveOneOutSplit<C, L>(x: seq<seq<C>>, y: seq<seq<L>>, idxLo: int): Result<Fold<C, L>, SplitError>
  {
    if PyIndex(|x|, idxLo).None? || PyIndex(|y|, idxLo).None? || |y| < |x| then Failure(IndexOutOfRange)
    else
      var xs := if idxLo >= 0 then x[..idxLo] + x[idxLo + 1..] else x;
      var ys := if idxLo >= 0 then y[..idxLo] + y[idxLo + 1..|x|] else y[..|x|];
      if ys == [] then Failure(EmptyConcatenate)
      else Success(Fold(Flatten(xs), x[PyIndex(|x|, idxLo).value], Flatten(ys), y[PyIndex(|y|, idxLo).value]))
  }

  /** `LeaveOneOutSplit` restated with the loop's own test `i == idx_lo`. */
  lemma {:induction false} LeaveOneOutByFilter<C, L>(x: seq<seq<C>>, y: seq<seq<L>>, idxLo: int)
    requires PyIndex(|x|, idxLo).Some? && PyIndex(|y|, idxLo).Some? && |x| <= |y|
    ensures var yx := y[..|x|];
      LeaveOneOutSplit(x, y, idxLo) ==
        if Outside(yx, idxLo, idxLo + 1) == [] then Failure(EmptyConcatenate)
        else Success(Fold(Flatten(Outside(x, idxLo, idxLo + 1)), x[PyIndex(|x|, idxLo).value],
                          Flatten(Outside(yx, idxLo, idxLo + 1)), y[PyIndex(|y|, idxLo).value]))
  {
    ExcludeOne(x, idxLo);
    ExcludeOne(y[..|x|], idxLo);
    if idxLo >= 0 {
      assert y[..|x|][..idxLo] == y[..idxLo] && y[..|x|][idxLo + 1..] == y[idxLo + 1..|x|];
    }
  }

  /** `leave_one_out(x, y, idx_lo)`. */
  method LeaveOneOut<C, L>(x: seq<seq<C>>, y: seq<seq<L>>, idxLo: int) returns (r: Result<Fold<C, L>, SplitError>)
    ensures r == LeaveOneOutSplit(x, y, idxLo)
  {
    var xAt := PyIndex(|x|, idxLo);
    var yAt := PyIndex(|y|, idxLo);
    if xAt.None? || yAt.None? {
      return Failure(IndexOutOfRange);
    }
    var xVal, yVal := x[xAt.value], y[yAt.value];
    var xTr: seq<C> := [];
    var yTr: seq<seq<L>> := [];
    ghost var trParts: seq<seq<C>> := [];
    ghost var hi := idxLo + 1;
    var i := 0;
    while i < |x|
      invariant i <= |x| && i <= |y|
      invariant trParts == Outside(x[..i], idxLo, hi) && xTr == Flatten(trParts)
      invariant yTr == Outside(y[..i], idxLo, hi)
    {
      FilterPrefix(x, i, idxLo, hi);
      if i == idxLo {
        FilterPrefix(y, i, idxLo, hi);
        i := i + 1;
        continue;
      }
      if i >= |y| {
        return Failure(IndexOutOfRange);
      }
      FilterPrefix(y, i, idxLo, hi);
      FlattenSnoc(trParts, x[i]);
      trParts := trParts + [x[i]];
      xTr := xTr + x[i];
      yTr := yTr + [y[i]];
      i := i + 1;
    }
    assert x[..i] == x && y[..i] == y[..|x|];
    LeaveOneOutByFilter(x, y, idxLo);
    if yTr == [] {
      return Failure(EmptyConcatenate);
    }
    return Success(Fold(xTr, xVal, Flatten(yTr), yVal));
  }


  /** Multiplying by a non-negative number keeps the order. */
  lemma MulMono(a: int, c: int, b: int)
    requires a <= c && 0 <= b
    ensures a * b <= c * b
  {
    assert c * b - a * b == (c - a) * b;
  }

  /** The fold arithmetic, kept apart from the sequences: block idx_lo of k blocks of size b
      lies inside the first k * b positions. */
  lemma BlockArith(idxLo: int, k: int, b: int)
    requires 0 <= idxLo < k && 0 <= b
    ensures 0 <= idxLo * b
    ensures (idxLo + 1) * b == idxLo * b + b
    ensures (idxLo + 1) * b <= k * b
  {
    MulMono(0, idxLo, b);
    MulMono(idxLo + 1, k, b);
  }

  /** With 2 <= k <= n the block size floor(n / k) is at least 1 and at most half of n. */
  lemma BlockSize(n: nat, k: int)
    requires 2 <= k <= n
    ensures 1 <= n / k && 2 * (n / k) <= n
  {
    var q := n / k;
    assert n == k * q + n % k && 0 <= n % k < k;
    MulMono(2, k, q);
  }

  /** With 0 <= idx_lo < k the validation block is exactly `idx_lo * b .. (idx_lo + 1) * b - 1`
      for b = floor(n / k), nothing clamped; the n - k * b trailing metagenomes are never in it. */
  lemma KFoldBlock(n: nat, idxLo: int, k: int)
    requires 0 <= idxLo < k
    ensures ValidationBounds(n, idxLo, k) == (idxLo * (n / k), (idxLo + 1) * (n / k))
    ensures (idxLo + 1) * (n / k) <= k * (n / k) <= n
  {
    var b := n / k;
    assert TruncDiv(n, k) == b;
    BlockArith(idxLo, k, b);
    assert k * b <= n;
  }

  /** Cutting a list of lists at a and b and flattening the middle apart keeps every element once. */
  lemma {:induction false} FlattenCut<T>(s: seq<seq<T>>, a: nat, b: nat)
    requires a <= b <= |s|
    ensures multiset(Flatten(s[..a] + s[b..])) + multiset(Flatten(s[a..b])) == multiset(Flatten(s))
    ensures |Flatten(s[..a] + s[b..])| + |Flatten(s[a..b])| == |Flatten(s)|
  {
    assert s == s[..a] + s[a..b] + s[b..];
    FlattenAppend(s[..a], s[b..]);
    FlattenAppend(s[..a], s[a..b]);
    FlattenAppend(s[..a] + s[a..b], s[b..]);
  }

  /** The one-element slice at i flattens to the element itself. */
  lemma {:induction false} FlattenSlice<T>(s: seq<seq<T>>, i: nat)
    requires i < |s|
    ensures Flatten(s[i..i + 1]) == s[i]
  {
    assert s[i..i + 1] == [] + [s[i]];
    FlattenSnoc([], s[i]);
  }

  /** The same within the first n lists. */
  lemma {:induction false} FlattenCutPrefix<T>(s: seq<seq<T>>, a: nat, b: nat, n: nat)
    requires a <= b <= n <= |s|
    ensures multiset(Flatten(s[..a] + s[b..n])) + multiset(Flatten(s[a..b])) == multiset(Flatten(s[..n]))
    ensures |Flatten(s[..a] + s[b..n])| + |Flatten(s[a..b])| == |Flatten(s[..n])|
  {
    assert s[..n] == s[..a] + s[a..b] + s[b..n];
    FlattenAppend(s[..a], s[b..n]);
    FlattenAppend(s[..a], s[a..b]);
    FlattenAppend(s[..a] + s[a..b], s[b..n]);
  }

  /** Cutting parallel lists at the same a and b keeps every contig and every label once. */
  lemma {:induction false} CutPreserves<C, L>(x: seq<seq<C>>, y: seq<seq<L>>, a: nat, b: nat)
    requires a <= b <= |x| <= |y|
    ensures multiset(Flatten(x[..a] + x[b..])) + multiset(Flatten(x[a..b])) == multiset(Flatten(x))
    ensures multiset(Flatten(y[..a] + y[b..|x|])) + multiset(Flatten(y[a..b])) == multiset(Flatten(y[..|x|]))
    ensures |Flatten(x[..a] + x[b..])| + |Flatten(x[a..b])| == |Flatten(x)|
    ensures |Flatten(y[..a] + y[b..|x|])| + |Flatten(y[a..b])| == |Flatten(y[..|x|])|
  {
    FlattenCut(x, a, b);
    FlattenCutPrefix(y, a, b, |x|);
  }

  /** Splitting loses and duplicates nothing: the training and validation contigs together are
      the metagenomes' contigs, and likewise the labels of the first len(x) label arrays. */
  lemma {:induction false} KFoldPreservesContents<C, L>(x: seq<seq<C>>, y: seq<seq<L>>, idxLo: int, k: int)
    requires KFoldSplit(x, y, idxLo, k).Success?
    ensures var f := KFoldSplit(x, y, idxLo, k).value;
      && multiset(f.xTr) + multiset(f.xVal) == multiset(Flatten(x))
      && multiset(f.yTr) + multiset(f.yVal) == multiset(Flatten(y[..|x|]))
      && |f.xTr| + |f.xVal| == |Flatten(x)|
      && |f.yTr| + |f.yVal| == |Flatten(y[..|x|])|
  {
    var ab := ValidationBounds(|x|, idxLo, k);
    CutPreserves(x, y, ab.0, ab.1);
  }

  /** With at least two folds, no more folds than metagenomes and 0 <= idx_lo < k, both sides
      are non-empty and `kfold` returns. */
  lemma {:induction false} KFoldSucceeds<C, L>(x: seq<seq<C>>, y: seq<seq<L>>, idxLo: int, k: int)
    requires 2 <= k <= |x| <= |y| && 0 <= idxLo < k
    ensures KFoldSplit(x, y, idxLo, k).Success?
  {
    var n := |x|;
    var block := n / k;
    BlockSize(n, k);
    KFoldBlock(n, idxLo, k);
    BlockArith(idxLo, k, block);
    var lower, upper := idxLo * block, (idxLo + 1) * block;
    assert ValidationBounds(n, idxLo, k) == (lower, upper);
    assert upper - lower == block && lower + (n - upper) == n - block;
  }

  /** With a single fold `kfold` always fails: one side is empty whatever idx_lo is. */
  lemma {:induction false} KFoldSingleFoldFails<C, L>(x: seq<seq<C>>, y: seq<seq<L>>, idxLo: int)
    ensures KFoldSplit(x, y, idxLo, 1).Failure?
  {
    var n := |x|;
    assert TruncDiv(n, 1) == n;
    if idxLo >= 1 {
      assert idxLo * n >= n by {
        assert idxLo * n == n + (idxLo - 1) * n && (idxLo - 1) * n >= 0;
      }
    } else if idxLo <= -1 {
      assert (idxLo + 1) * n <= 0;
    }
  }

  /** Ten metagenomes in five folds: fold 2 validates on metagenomes 4 and 5. */
  lemma {:induction false} KFoldTenByFive<C, L>(x: seq<seq<C>>, y: seq<seq<L>>)
    requires |x| == |y| == 10
    ensures KFoldSplit(x, y, 2, 5).Success?
    ensures KFoldSplit(x, y, 2, 5).value.xVal == x[4] + x[5]
    ensures KFoldSplit(x, y, 2, 5).value.yVal == y[4] + y[5]
    ensures KFoldSplit(x, y, 2, 5).value.xTr == Flatten(x[..4] + x[6..])
  {
    KFoldBlock(10, 2, 5);
    assert x[4..6] == [x[4], x[5]] && y[4..6] == [y[4], y[5]];
    FlattenSnoc([], x[4]);
    FlattenSnoc([x[4]], x[5]);
    FlattenSnoc([], y[4]);
    FlattenSnoc([y[4]], y[5]);
    assert [x[4]] + [x[5]] == [x[4], x[5]] && [y[4]] + [y[5]] == [y[4], y[5]];
  }

  /** For 0 <= idx_lo < len(x) the held-out metagenome is `x[idx_lo]` as it is, with `y[idx_lo]`;
      training is every other metagenome in order, and the contigs of both sides together are all
      the contigs, each once. */
  lemma {:induction false} LeaveOneOutHoldsOut<C, L>(x: seq<seq<C>>, y: seq<seq<L>>, idxLo: int)
    requires 0 <= idxLo < |x| <= |y| && |x| >= 2
    ensures LeaveOneOutSplit(x, y, idxLo).Success?
    ensures var f := LeaveOneOutSplit(x, y, idxLo).value;
      && f.xVal == x[idxLo] && f.yVal == y[idxLo]
      && f.xTr == Flatten(x[..idxLo] + x[idxLo + 1..])
      && f.yTr == Flatten(y[..idxLo] + y[idxLo + 1..|x|])
      && multiset(f.xTr) + multiset(f.xVal) == multiset(Flatten(x))
  {
    var xs := x[..idxLo] + x[idxLo + 1..];
    var ys := y[..idxLo] + y[idxLo + 1..|x|];
    assert |ys| == |x| - 1;
    assert LeaveOneOutSplit(x, y, idxLo) == Success(Fold(Flatten(xs), x[idxLo], Flatten(ys), y[idxLo]));
    FlattenCut(x, idxLo, idxLo + 1);
    FlattenSlice(x, idxLo);
  }

  /** A negative idx_lo selects a validation metagenome from the end but leaves it in training:
      the training contigs are all the contigs. */
  lemma {:induction false} LeaveOneOutNegativeIndexKeepsAll<C, L>(x: seq<seq<C>>, y: seq<seq<L>>, idxLo: int)
    requires 0 <= |x| + idxLo && idxLo < 0 && |x| <= |y|
    ensures LeaveOneOutSplit(x, y, idxLo).Success?
    ensures LeaveOneOutSplit(x, y, idxLo).value.xVal == x[|x| + idxLo]
    ensures LeaveOneOutSplit(x, y, idxLo).value.xTr == Flatten(x)
  {
    assert PyIndex(|x|, idxLo) == Some(|x| + idxLo);
    assert PyIndex(|y|, idxLo).Some?;
    assert y[..|x|] != [] by {
      assert |y[..|x|]| == |x| >= 1;
    }
  }

  /** Leave-one-out is k-fold with one metagenome per fold, and then returns the same split. */
  lemma {:induction false} LeaveOneOutIsKFoldOfSingletons<C, L>(x: seq<seq<C>>, y: seq<seq<L>>, idxLo: int)
    requires 0 <= idxLo < |x| <= |y| && |x| >= 2
    ensures KFoldSplit(x, y, idxLo, |x|).Success?
    ensures LeaveOneOutSplit(x, y, idxLo).Success?
    ensures KFoldSplit(x, y, idxLo, |x|).value == LeaveOneOutSplit(x, y, idxLo).value
  {
    var n := |x|;
    KFoldBlock(n, idxLo, n);
    assert n / n == 1;
    assert ValidationBounds(n, idxLo, n) == (idxLo, idxLo + 1);
    var xs := x[..idxLo] + x[idxLo + 1..];
    var ys := y[..idxLo] + y[idxLo + 1..n];
    assert KFoldSplit(x, y, idxLo, n) ==
      Success(Fold(Flatten(xs), Flatten(x[idxLo..idxLo + 1]), Flatten(ys), Flatten(y[idxLo..idxLo + 1])));
    LeaveOneOutHoldsOut(x, y, idxLo);
    FlattenSlice(x, idxLo);
    FlattenSlice(y, idxLo);
  }

  /** `kfold` does not check idx_lo: with seven metagenomes in three folds, idx_lo = 3 is past
      the last fold and validates on the one trailing metagenome that no fold covers. */
  lemma {:induction false} KFoldPastLastFold<C, L>(x: seq<seq<C>>, y: seq<seq<L>>)
    requires |x| == |y| == 7
    ensures KFoldSplit(x, y, 3, 3).Success?
    ensures KFoldSplit(x, y, 3, 3).value.xVal == x[6]
    ensures KFoldSplit(x, y, 3, 3).value.xTr == Flatten(x[..6])
  {
    assert TruncDiv(7, 3) == 2;
    assert ValidationBounds(7, 3, 3) == (6, 7);
    FlattenSlice(x, 6);
    assert x[..6] + x[7..] == x[..6];
  }
}
