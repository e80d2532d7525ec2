/**
 * The per-contig truncation of `load_features` in dl_code/utils.py: after a
 * metagenome's pickled matrices are loaded, each one is replaced in its list
 * by its first `max_len` rows with column 0 (the slot of unrecognised
 * letters) cut off.
 */
module DatasetLoader {
  import opened Sequences
  import opened FeatureParser

  /** `m[0:max_len, 1:]`: the rows kept by the Python slice `[0:max_len]`, each without column 0. */
  function TruncateContig<T>(m: seq<seq<T>>, maxLen: int): (t: seq<seq<T>>)
    ensures |t| == SliceStop(|m|, maxLen)
    ensures forall i :: 0 <= i < |t| ==> if m[i] == [] then t[i] == [] else [m[i][0]] + t[i] == m[i]
  {
    seq(SliceStop(|m|, maxLen), i requires 0 <= i < SliceStop(|m|, maxLen) => if m[i] == [] then [] else m[i][1..])
  }

  /** The loop `for j in range(len(xi)): xi[j] = xi[j][0:max_len, 1:]`, on the list of one metagenome. */
  method TruncateFeatures<T>(xi: array<seq<seq<T>>>, maxLen: int)
    modifies xi
    ensures forall j :: 0 <= j < xi.Length ==> xi[j] == TruncateContig(old(xi[j]), maxLen)
  {
    for j := 0 to xi.Length
      invariant forall k :: 0 <= k < j ==> xi[k] == TruncateContig(old(xi[k]), maxLen)
      invariant forall k :: j <= k < xi.Length ==> xi[k] == old(xi[k])
    {
      xi[j] := TruncateContig(xi[j], maxLen);
    }
  }

  /** A non-negative max_len bounds the kept rows: exactly min(rows, max_len) of them, the leading
      ones, in order. */
  lemma TruncateKeepsLeadingRows<T>(m: seq<seq<T>>, maxLen: int)
    requires maxLen >= 0
    ensures var t := TruncateContig(m, maxLen);
      && |t| <= maxLen
      && |t| == (if |m| < maxLen then |m| else maxLen)
      && forall i :: 0 <= i < |t| && m[i] != [] ==> t[i] == m[i][1..]
  {
    var t := TruncateContig(m, maxLen);
    forall i | 0 <= i < |t| && m[i] != []
      ensures t[i] == m[i][1..]
    {
      assert [m[i][0]] + t[i] == m[i];
      assert m[i][1..] == ([m[i][0]] + t[i])[1..];
    }
  }

  /** Cutting column 0 off an encoded row leaves a four-slot one-hot prefix for A, C, T, G in that
      order, all zero for any other letter, followed by the feature bytes. */
  lemma TruncatedRowPrefix(r: Row)
    ensures var e := EncodeRow(r)[1..];
      && |e| == 4 + |r.features|
      && (forall s :: 0 <= s < 4 ==> (e[s] == 1 <==> r.letter == Nucleotides[s]))
      && (forall s :: 0 <= s < 4 ==> e[s] == 0 || e[s] == 1)
      && (r.letter !in Nucleotides ==> forall s :: 0 <= s < 4 ==> e[s] == 0)
      && forall j :: 0 <= j < |r.features| ==> e[4 + j] == ToByte(r.features[j])
  {
    var full := EncodeRow(r);
    var e := full[1..];
    var slot := LetterSlot(r.letter);
    forall s | 0 <= s < 4
      ensures (e[s] == 1 <==> r.letter == Nucleotides[s]) && (e[s] == 0 || e[s] == 1)
    {
      assert e[s] == full[s + 1];
      if r.letter == Nucleotides[s] {
        assert slot != 0;
        assert Nucleotides[slot - 1] == Nucleotides[s];
        assert slot == s + 1;
      } else {
        assert slot != s + 1;
      }
    }
  }

  /** The truncated matrix of an encoded contig: each kept row is its encoded row without the
      unrecognised-letter slot. */
  lemma TruncateEncoded(rows: seq<Row>, maxLen: int)
    ensures var t := TruncateContig(seq(|rows|, i requires 0 <= i < |rows| => EncodeRow(rows[i])), maxLen);
      forall i :: 0 <= i < |t| ==> t[i] == EncodeRow(rows[i])[1..]
  {
    var m := seq(|rows|, i requires 0 <= i < |rows| => EncodeRow(rows[i]));
    var t := TruncateContig(m, maxLen);
    forall i | 0 <= i < |t|
      ensures t[i] == EncodeRow(rows[i])[1..]
    {
      assert m[i] == EncodeRow(rows[i]) && m[i] != [];
      assert [m[i][0]] + t[i] == m[i];
      assert m[i][1..] == ([m[i][0]] + t[i])[1..];
    }
  }
}
