/**
 * The shape logic of `normalize` in dl_code/utils.py. Each contig is scaled
 * column by column, padded with zero rows up to `max_len` rows or cut to its
 * first `max_len` rows, and given a leading axis in place; the contigs are then
 * stacked into one array and given a trailing channel axis.
 *
 * The scaling `(x[i] - mean) / std` is the parameter `scale`, applied to every
 * value with its column number; its floating-point arithmetic is not modelled.
 */
module Normalizer {
  import opened Wrappers
  import opened Sequences

  /** The exceptions `normalize` can end with. */
  datatype NormError =
    | EmptyInput      // `x[0]` of an empty list
    | ShapeMismatch   // `np.concatenate` of contigs with different row counts

  /** A per-column scaling of a value, standing for `(v - mean[j]) / std[j]`. */
  type Scale = (nat, real) -> real

  /** Every row of `m` has `width` values. */
  predicate HasWidth(m: seq<seq<real>>, width: nat)
  {
    forall i :: 0 <= i < |m| ==> |m[i]| == width
  }

  /** `(x[i] - mean) / std`: every value scaled with its column number. */
  function Transform(m: seq<seq<real>>, scale: Scale): (t: seq<seq<real>>)
    ensures |t| == |m|
    ensures forall i :: 0 <= i < |m| ==> |t[i]| == |m[i]|
    ensures forall i, j :: 0 <= i < |m| && 0 <= j < |m[i]| ==> t[i][j] == scale(j, m[i][j])
  {
    seq(|m|, i requires 0 <= i < |m| => seq(|m[i]|, j requires 0 <= j < |m[i]| => scale(j, m[i][j])))
  }

  /** `np.zeros((count, width))`. */
  function ZeroRows(count: nat, width: nat): (z: seq<seq<real>>)
    ensures |z| == count && HasWidth(z, width)
    ensures forall i, j :: 0 <= i < count && 0 <= j < width ==> z[i][j] == 0.0
  {
    seq(count, _ => seq(width, _ => 0.0))
  }

  /** One contig after scaling, then padding with zero rows when it has fewer than `max_len`
      rows, or else the slice `[0:max_len]`. */
  function FitContig(m: seq<seq<real>>, scale: Scale, width: nat, maxLen: int): (r: seq<seq<real>>)
    requires HasWidth(m, width)
    ensures HasWidth(r, width)
    ensures maxLen >= 0 ==> |r| == maxLen
    ensures maxLen < 0 ==> |r| == SliceStop(|m|, maxLen)
    ensures forall i, j :: 0 <= i < |r| && i < |m| && 0 <= j < width ==> r[i][j] == scale(j, m[i][j])
    ensures forall i, j :: |m| <= i < |r| && 0 <= j < width ==> r[i][j] == 0.0
  {
    var t := Transform(m, scale);
    if |t| < maxLen then t + ZeroRows(maxLen - |t|, width)
    else t[..SliceStop(|t|, maxLen)]
  }

  /** `np.expand_dims(c, -1)` on one contig of the stacked array: every value becomes a
      one-element channel. */
  function AddChannel(c: seq<seq<real>>): (d: seq<seq<seq<real>>>)
    ensures |d| == |c|
    ensures forall i :: 0 <= i < |c| ==> |d[i]| == |c[i]|
    ensures forall i, j :: 0 <= i < |c| && 0 <= j < |c[i]| ==> d[i][j] == [c[i][j]]
  {
    seq(|c|, i requires 0 <= i < |c| => seq(|c[i]|, j requires 0 <= j < |c[i]| => [c[i][j]]))
  }

  /** Every contig has the row count of the first one: the condition for `np.concatenate`. */
  predicate SameRowCount(cs: seq<seq<seq<real>>>)
  {
    forall i :: 0 <= i < |cs| ==> |cs[i]| == |cs[0]|
  }

  /** The contigs once each has been fitted. */
  function FitAll(xs: seq<seq<seq<real>>>, scale: Scale, width: nat, maxLen: int): (fs: seq<seq<seq<real>>>)
    requires forall i :: 0 <= i < |xs| ==> HasWidth(xs[i], width)
    ensures |fs| == |xs|
  {
    seq(|xs|, i requires 0 <= i < |xs| => FitContig(xs[i], scale, width, maxLen))
  }

  /** What `normalize(x, mean, std, max_len)` returns: the fitted contigs stacked, with a
      channel axis, or the exception it ends with. */
  function NormalizeSpec(xs: seq<seq<seq<real>>>, scale: Scale, width: nat, maxLen: int): Result<seq<seq<seq<seq<real>>>>, NormError>
    requires forall i :: 0 <= i < |xs| ==> HasWidth(xs[i], width)
  {
    if xs == [] then Failure(EmptyInput)
    else
      var fs := FitAll(xs, scale, width, maxLen);
      if !SameRowCount(fs) then Failure(ShapeMismatch)
      else Success(seq(|fs|, i requires 0 <= i < |fs| => AddChannel(fs[i])))
  }

  /** `normalize(x, mean, std, max_len)`: overwrites each `x[i]` with its fitted contig (the
      leading axis that `np.expand_dims(x[i], 0)` adds is left implicit), then stacks. */
  method Normalize(x: array<seq<seq<real>>>, scale: Scale, width: nat, maxLen: int)
    returns (r: Result<seq<seq<seq<seq<real>>>>, NormError>)
    requires forall i :: 0 <= i < x.Length ==> HasWidth(x[i], width)
    modifies x
    ensures r == NormalizeSpec(old(x[..]), scale, width, maxLen)
    ensures x.Length == 0 ==> x[..] == old(x[..])
    ensures x.Length > 0 ==> x[..] == FitAll(old(x[..]), scale, width, maxLen)
  {
    if x.Length == 0 {
      return Failure(EmptyInput);
    }
    ghost var xs := x[..];
    for i := 0 to x.Length
      invariant forall k :: 0 <= k < i ==> x[k] == FitContig(xs[k], scale, width, maxLen)
      invariant forall k :: i <= k < x.Length ==> x[k] == xs[k]
    {
      x[i] := FitContig(x[i], scale, width, maxLen);
    }
    var fitted := x[..];
    assert fitted == FitAll(xs, scale, width, maxLen);
    if !SameRowCount(fitted) {
      return Failure(ShapeMismatch);
    }
    r := Success(seq(|fitted|, i requires 0 <= i < |fitted| => AddChannel(fitted[i])));
  }

  /** With a non-negative max_len, `normalize` of a non-empty list succeeds and has shape
      (contigs, max_len, width, 1): the stacked array keeps every contig in order, and holds
      the scaled values, then zeros. */
  lemma NormalizeShape(xs: seq<seq<seq<real>>>, scale: Scale, width: nat, maxLen: int)
    requires forall i :: 0 <= i < |xs| ==> HasWidth(xs[i], width)
    requires xs != [] && maxLen >= 0
    ensures NormalizeSpec(xs, scale, width, maxLen).Success?
    ensures var out := NormalizeSpec(xs, scale, width, maxLen).value;
      && |out| == |xs|
      && (forall n :: 0 <= n < |out| ==> |out[n]| == maxLen)
      && (forall n, i :: 0 <= n < |out| && 0 <= i < maxLen ==> |out[n][i]| == width)
      && (forall n, i, j :: 0 <= n < |out| && 0 <= i < maxLen && i < |xs[n]| && 0 <= j < width ==>
            out[n][i][j] == [scale(j, xs[n][i][j])])
      && (forall n, i, j :: 0 <= n < |out| && |xs[n]| <= i < maxLen && 0 <= j < width ==>
            out[n][i][j] == [0.0])
  {
    var fs := FitAll(xs, scale, width, maxLen);
    assert SameRowCount(fs) by {
      forall i | 0 <= i < |fs|
        ensures |fs[i]| == |fs[0]|
      {
        assert |fs[i]| == maxLen;
      }
    }
    var out := NormalizeSpec(xs, scale, width, maxLen).value;
    forall n, i, j | 0 <= n < |out| && 0 <= i < maxLen && 0 <= j < width
      ensures |out[n][i]| == width
      ensures i < |xs[n]| ==> out[n][i][j] == [scale(j, xs[n][i][j])]
      ensures |xs[n]| <= i ==> out[n][i][j] == [0.0]
    {
      assert out[n] == AddChannel(fs[n]);
      assert fs[n] == FitContig(xs[n], scale, width, maxLen);
    }
  }

  /** `normalize` fails on a non-empty list only when a negative max_len cuts contigs of
      different lengths to different row counts. */
  lemma NormalizeMismatchNeedsNegativeMaxLen(xs: seq<seq<seq<real>>>, scale: Scale, width: nat, maxLen: int)
    requires forall i :: 0 <= i < |xs| ==> HasWidth(xs[i], width)
    requires NormalizeSpec(xs, scale, width, maxLen) == Failure(ShapeMismatch)
    ensures maxLen < 0
    ensures exists i :: 0 <= i < |xs| && SliceStop(|xs[i]|, maxLen) != SliceStop(|xs[0]|, maxLen)
  {
    var fs := FitAll(xs, scale, width, maxLen);
    if maxLen >= 0 {
      NormalizeShape(xs, scale, width, maxLen);
      assert false;
    }
    var i :| 0 <= i < |fs| && |fs[i]| != |fs[0]|;
    assert |fs[i]| == SliceStop(|xs[i]|, maxLen);
  }

  /** Two contigs of different lengths with max_len = -1 make `normalize` fail. */
  lemma NegativeMaxLenMismatch(scale: Scale)
    ensures NormalizeSpec([[[1.0]], [[1.0], [2.0], [3.0]]], scale, 1, -1) == Failure(ShapeMismatch)
  {
    var xs: seq<seq<seq<real>>> := [[[1.0]], [[1.0], [2.0], [3.0]]];
    var fs := FitAll(xs, scale, 1, -1);
    assert |fs[0]| == 0 && |fs[1]| == 2;
  }

  /** A contig of at most max_len rows loses nothing: it is all of its scaled rows, then
      max_len - rows rows of zeros. */
  lemma FitContigPads(m: seq<seq<real>>, scale: Scale, width: nat, maxLen: int)
    requires HasWidth(m, width) && |m| <= maxLen
    ensures var r := FitContig(m, scale, width, maxLen);
      r[..|m|] == Transform(m, scale) && r[|m|..] == ZeroRows(maxLen - |m|, width)
  {
    var r := FitContig(m, scale, width, maxLen);
    var t := Transform(m, scale);
    if |m| == maxLen {
      assert r == t;
      assert r[|m|..] == [];
    } else {
      assert r == t + ZeroRows(maxLen - |m|, width);
    }
  }

  /** Cutting a contig of at least max_len >= 0 rows commutes with scaling: the fitted contig is
      the scaling of its first max_len rows. */
  lemma FitContigCuts(m: seq<seq<real>>, scale: Scale, width: nat, maxLen: int)
    requires HasWidth(m, width) && 0 <= maxLen <= |m|
    ensures FitContig(m, scale, width, maxLen) == Transform(m[..maxLen], scale)
  {
    var r := FitContig(m, scale, width, maxLen);
    var u := Transform(m[..maxLen], scale);
    assert |r| == |u|;
    forall i | 0 <= i < |r|
      ensures r[i] == u[i]
    {
      assert |r[i]| == width == |u[i]|;
    }
  }
}
