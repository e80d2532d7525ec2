/**
 * What the parsing loop of `pickle_data` guarantees, and the quirks of the
 * code as written: which row the labels come from, what a discarded group
 * costs the next contig, and that the last group is never emitted.
 */
module ParserProperties {
  import opened Wrappers
  import opened FeatureParser

  /** `name_to_id` holds the ids 0 .. n - 1, each exactly once. */
  ghost predicate NamesDense(m: map<string, nat>, n: nat)
  {
    && |m| == n
    && (forall k :: k in m ==> m[k] < n)
    && (forall v: nat :: v < n ==> v in m.Values)
    && forall a, b :: a in m && b in m && a != b ==> m[a] != m[b]
  }

  /** The four output lists are parallel, the labels are binary, every emitted matrix is a
      non-empty stack of equal-width rows, and the ids are dense. */
  ghost predicate Valid(s: ParserState)
  {
    && |s.out.features| == |s.out.chimeric| == |s.out.editDist| == |s.out.extensive|
    && (forall i :: 0 <= i < |s.out.chimeric| ==> s.out.chimeric[i] == 0 || s.out.chimeric[i] == 1)
    && (forall i :: 0 <= i < |s.out.extensive| ==> s.out.extensive[i] == 0 || s.out.extensive[i] == 1)
    && (forall i :: 0 <= i < |s.out.features| ==> s.out.features[i] != [] && UniformWidth(s.out.features[i]))
    && NamesDense(s.out.nameToId, s.idx)
  }

  /** The four label and feature lists of two outputs agree (the name map may differ). */
  ghost predicate SameGroups(p: Parsed, q: Parsed)
  {
    p.features == q.features && p.chimeric == q.chimeric && p.editDist == q.editDist && p.extensive == q.extensive
  }

  /** `m2` keeps every key of `m1` with its id. */
  ghost predicate KeepsIds(m1: map<string, nat>, m2: map<string, nat>)
  {
    forall k :: k in m1 ==> k in m2 && m2[k] == m1[k]
  }

  /** Giving a new key the next id keeps the ids dense. */
  lemma InsertFresh(m: map<string, nat>, n: nat, k: string)
    requires NamesDense(m, n) && k !in m
    ensures NamesDense(m[k := n], n + 1)
  {
    var m' := m[k := n];
    assert m'.Keys == m.Keys + {k};
    assert |m'| == n + 1;
    forall v: nat | v < n + 1 ensures v in m'.Values {
      if v == n {
        assert m'[k] == n;
      } else {
        assert v in m.Values;
        var key :| key in m && m[key] == v;
        assert key != k && m'[key] == v;
      }
    }
  }

  lemma AppendRowKeepsNames(s: ParserState, r: Row)
    requires NamesDense(s.out.nameToId, s.idx)
    ensures NamesDense(AppendRow(s, r).out.nameToId, AppendRow(s, r).idx)
    ensures KeepsIds(s.out.nameToId, AppendRow(s, r).out.nameToId)
    ensures r.contig in AppendRow(s, r).out.nameToId
    ensures r.contig !in s.out.nameToId ==> AppendRow(s, r).out.nameToId[r.contig] == s.idx
  {
    if r.contig !in s.out.nameToId {
      InsertFresh(s.out.nameToId, s.idx, r.contig);
    }
  }

  /** One iteration keeps the parser state valid and never changes an id already given. */
  lemma StepKeepsValid(s: ParserState, r: Row, toFloat: string -> Option<real>)
    requires Valid(s)
    requires Step(s, r, toFloat).Success?
    ensures Valid(Step(s, r, toFloat).value)
    ensures KeepsIds(s.out.nameToId, Step(s, r, toFloat).value.out.nameToId)
  {
    var prev := s.prevName.GetOr(r.contig);
    var tgt := if s.tgt.Some? then s.tgt.value else TargetsOf(r);
    if r.contig == prev {
      AppendRowKeepsNames(s.(prevName := Some(prev), tgt := Some(tgt)), r);
    } else if tgt.chimeric != "" {
      var m := s.feat;
      var ed := toFloat(tgt.editDist).value;
      var out := s.out.(
        features := s.out.features + [m],
        chimeric := s.out.chimeric + [ChimericLabel(tgt.chimeric)],
        editDist := s.out.editDist + [ed],
        extensive := s.out.extensive + [ExtensiveLabel(tgt.extensive)]);
      AppendRowKeepsNames(ParserState(Some(r.contig), None, [], out, s.idx), r);
    }
  }

  /** The whole loop keeps the state valid and never changes an id already given. */
  lemma {:induction false} RunKeepsValid(s: ParserState, rows: seq<Row>, toFloat: string -> Option<real>)
    requires Valid(s)
    requires Run(s, rows, toFloat).Success?
    ensures Valid(Run(s, rows, toFloat).value)
    ensures KeepsIds(s.out.nameToId, Run(s, rows, toFloat).value.out.nameToId)
    decreases |rows|
  {
    if rows != [] {
      StepKeepsValid(s, rows[0], toFloat);
      var s' := Step(s, rows[0], toFloat).value;
      RunKeepsValid(s', rows[1..], toFloat);
    }
  }

  /** A successful parse yields parallel lists, binary labels, non-empty equal-width matrices,
      and ids 0 .. |name_to_id| - 1 given each to exactly one contig. */
  lemma ParseRowsValid(rows: seq<Row>, toFloat: string -> Option<real>)
    requires ParseRows(rows, toFloat).Success?
    ensures var p := ParseRows(rows, toFloat).value;
      && |p.features| == |p.chimeric| == |p.editDist| == |p.extensive|
      && (forall i :: 0 <= i < |p.chimeric| ==> p.chimeric[i] == 0 || p.chimeric[i] == 1)
      && (forall i :: 0 <= i < |p.extensive| ==> p.extensive[i] == 0 || p.extensive[i] == 1)
      && (forall i :: 0 <= i < |p.features| ==> p.features[i] != [] && UniformWidth(p.features[i]))
      && NamesDense(p.nameToId, |p.nameToId|)
  {
    assert Valid(Init);
    RunKeepsValid(Init, rows, toFloat);
  }

  /** A row of the pending contig is appended: no output is emitted and the labels captured
      for the group are the ones pending, or this row's when none are. */
  lemma StepWithinGroup(s: ParserState, r: Row, toFloat: string -> Option<real>)
    requires s.prevName.None? || s.prevName == Some(r.contig)
    ensures Step(s, r, toFloat).Success?
    ensures var s' := Step(s, r, toFloat).value;
      && SameGroups(s'.out, s.out)
      && s'.feat == s.feat + [EncodeRow(r)]
      && s'.prevName == Some(r.contig)
      && s'.tgt == Some(if s.tgt.Some? then s.tgt.value else TargetsOf(r))
      && r.contig in s'.out.nameToId
  {
  }

  /** At a contig boundary with a non-empty chimeric field, the finished group is emitted:
      exactly one matrix (its rows) and one entry in each label list, the labels being the
      pending ones or, when none are pending, the boundary row's own. The boundary row then
      starts the new group and no labels are pending. */
  lemma StepEmits(s: ParserState, r: Row, toFloat: string -> Option<real>)
    requires s.prevName.Some? && s.prevName.value != r.contig
    requires (if s.tgt.Some? then s.tgt.value else TargetsOf(r)).chimeric != ""
    requires Step(s, r, toFloat).Success?
    ensures var tgt := if s.tgt.Some? then s.tgt.value else TargetsOf(r);
      var s' := Step(s, r, toFloat).value;
      && s'.out.features == s.out.features + [s.feat]
      && |s'.out.chimeric| == |s.out.chimeric| + 1 && s'.out.chimeric[..|s.out.chimeric|] == s.out.chimeric
      && (s'.out.chimeric[|s.out.chimeric|] == 0 <==> tgt.chimeric == "FALSE")
      && s'.out.editDist == s.out.editDist + [toFloat(tgt.editDist).value]
      && |s'.out.extensive| == |s.out.extensive| + 1 && s'.out.extensive[..|s.out.extensive|] == s.out.extensive
      && (s'.out.extensive[|s.out.extensive|] == 0 <==> tgt.extensive == "")
      && s'.feat == [EncodeRow(r)]
      && s'.tgt.None?
      && s'.prevName == Some(r.contig)
  {
    var tgt := if s.tgt.Some? then s.tgt.value else TargetsOf(r);
    var s' := Step(s, r, toFloat).value;
    assert s'.out.chimeric == s.out.chimeric + [ChimericLabel(tgt.chimeric)];
    assert s'.out.extensive == s.out.extensive + [ExtensiveLabel(tgt.extensive)];
  }

  /** At a contig boundary with an empty chimeric field, the finished group is dropped with no
      matrix and no label, and the boundary row itself is skipped: not appended and not
      given an id. */
  lemma StepDiscards(s: ParserState, r: Row, toFloat: string -> Option<real>)
    requires s.prevName.Some? && s.prevName.value != r.contig
    requires (if s.tgt.Some? then s.tgt.value else TargetsOf(r)).chimeric == ""
    ensures Step(s, r, toFloat).Success?
    ensures var s' := Step(s, r, toFloat).value;
      && s'.out == s.out
      && s'.idx == s.idx
      && s'.feat == []
      && s'.tgt.None?
      && s'.prevName == Some(r.contig)
  {
  }

  /** After a discard, a new contig of a single row followed by a labelled contig makes the
      parse fail: `np.concatenate` is handed an empty list. */
  lemma DiscardThenSingleRowFails(s: ParserState, a: Row, b: Row, toFloat: string -> Option<real>)
    requires s.prevName.Some? && s.prevName.value != a.contig && a.contig != b.contig
    requires s.tgt.Some? && s.tgt.value.chimeric == ""
    requires b.chimeric != ""
    ensures Run(s, [a, b], toFloat) == Failure(EmptyConcatenate)
  {
    var s1 := Step(s, a, toFloat).value;
    assert s1.feat == [] && s1.tgt.None? && s1.prevName == Some(a.contig);
    assert [a, b][1..] == [b];
    assert [b][1..] == [];
  }

  /** Running over `a + b` is running over `a`, then over `b`. */
  lemma {:induction false} RunAppend(s: ParserState, a: seq<Row>, b: seq<Row>, toFloat: string -> Option<real>)
    ensures Run(s, a + b, toFloat) ==
      match Run(s, a, toFloat)
      case Failure(e) => Failure(e)
      case Success(t) => Run(t, b, toFloat)
    decreases |a|
  {
    if a == [] {
      assert a + b == b;
    } else {
      assert (a + b)[0] == a[0];
      assert (a + b)[1..] == a[1..] + b;
      match Step(s, a[0], toFloat)
      case Failure(e) =>
      case Success(s') => RunAppend(s', a[1..], b, toFloat);
    }
  }

  /** After a successful run over some rows, `prev_name` is the last row's contig. */
  lemma {:induction false} RunPrevName(s: ParserState, rows: seq<Row>, toFloat: string -> Option<real>)
    requires rows != []
    requires Run(s, rows, toFloat).Success?
    ensures Run(s, rows, toFloat).value.prevName == Some(rows[|rows| - 1].contig)
    decreases |rows|
  {
    var s' := Step(s, rows[0], toFloat).value;
    if |rows| > 1 {
      assert rows[1..][|rows[1..]| - 1] == rows[|rows| - 1];
      RunPrevName(s', rows[1..], toFloat);
    }
  }

  /** Rows that continue the pending contig never emit anything: they only grow the pending group. */
  lemma {:induction false} PendingGroupNeverEmitted(s: ParserState, rows: seq<Row>, c: string, toFloat: string -> Option<real>)
    requires s.prevName == Some(c)
    requires forall i :: 0 <= i < |rows| ==> rows[i].contig == c
    ensures Run(s, rows, toFloat).Success?
    ensures SameGroups(Run(s, rows, toFloat).value.out, s.out)
    ensures Run(s, rows, toFloat).value.feat == s.feat + seq(|rows|, i requires 0 <= i < |rows| => EncodeRow(rows[i]))
    decreases |rows|
  {
    if rows != [] {
      StepWithinGroup(s, rows[0], toFloat);
      var s' := Step(s, rows[0], toFloat).value;
      PendingGroupNeverEmitted(s', rows[1..], c, toFloat);
      var enc := seq(|rows|, i requires 0 <= i < |rows| => EncodeRow(rows[i]));
      var enc' := seq(|rows[1..]|, i requires 0 <= i < |rows[1..]| => EncodeRow(rows[1..][i]));
      assert enc == [EncodeRow(rows[0])] + enc';
    }
  }

  /** Nothing finalises after the loop: rows appended to a table that continue its last contig
      leave the feature matrices and the label lists exactly as they were. */
  lemma LastGroupNeverEmitted(rows: seq<Row>, tail: seq<Row>, toFloat: string -> Option<real>)
    requires rows != []
    requires ParseRows(rows, toFloat).Success?
    requires forall i :: 0 <= i < |tail| ==> tail[i].contig == rows[|rows| - 1].contig
    ensures ParseRows(rows + tail, toFloat).Success?
    ensures SameGroups(ParseRows(rows + tail, toFloat).value, ParseRows(rows, toFloat).value)
  {
    RunAppend(Init, rows, tail, toFloat);
    var t := Run(Init, rows, toFloat).value;
    RunPrevName(Init, rows, toFloat);
    PendingGroupNeverEmitted(t, tail, rows[|rows| - 1].contig, toFloat);
  }

  /** A table holding a single contig, however long, produces no matrix and no label. */
  lemma SingleContigEmitsNothing(rows: seq<Row>, c: string, toFloat: string -> Option<real>)
    requires forall i :: 0 <= i < |rows| ==> rows[i].contig == c
    ensures ParseRows(rows, toFloat).Success?
    ensures var p := ParseRows(rows, toFloat).value;
      p.features == [] && p.chimeric == [] && p.editDist == [] && p.extensive == []
  {
    if rows != [] {
      StepWithinGroup(Init, rows[0], toFloat);
      var s := Step(Init, rows[0], toFloat).value;
      PendingGroupNeverEmitted(s, rows[1..], c, toFloat);
    }
  }

  /** A contig that follows an emitted group takes its labels from its second row: with the
      boundary row `a`, the next row `b` of the same contig and the boundary row `d` of the
      contig after, the labels emitted for `a`'s contig are `b`'s. */
  lemma LabelsFromSecondRow(s: ParserState, a: Row, b: Row, d: Row, toFloat: string -> Option<real>)
    requires s.prevName.Some? && s.prevName.value != a.contig
    requires s.tgt.Some? && s.tgt.value.chimeric != ""
    requires b.contig == a.contig && d.contig != a.contig && b.chimeric != ""
    requires Run(s, [a, b, d], toFloat).Success?
    ensures var p := Run(s, [a, b, d], toFloat).value.out;
      && |p.chimeric| == |s.out.chimeric| + 2
      && |p.editDist| == |s.out.editDist| + 2
      && |p.extensive| == |s.out.extensive| + 2
      && toFloat(b.editDist).Some?
      && (p.chimeric[|p.chimeric| - 1] == 0 <==> b.chimeric == "FALSE")
      && p.editDist[|p.editDist| - 1] == toFloat(b.editDist).value
      && (p.extensive[|p.extensive| - 1] == 0 <==> b.extensive == "")
  {
    var rows := [a, b, d];
    assert rows[1..] == [b, d] && rows[1..][1..] == [d] && rows[1..][1..][1..] == [];
    StepEmits(s, a, toFloat);
    assert Step(s, a, toFloat).Success?;
    var s1 := Step(s, a, toFloat).value;
    assert Run(s, rows, toFloat) == Run(s1, [b, d], toFloat);
    StepWithinGroup(s1, b, toFloat);
    var s2 := Step(s1, b, toFloat).value;
    assert s2.tgt == Some(TargetsOf(b));
    assert Run(s1, [b, d], toFloat) == Run(s2, [d], toFloat);
    assert Step(s2, d, toFloat).Success?;
    StepEmits(s2, d, toFloat);
    assert Run(s2, [d], toFloat) == Step(s2, d, toFloat);
  }

  /** A contig of a single row that follows an emitted group is emitted with the labels of the
      first row of the contig after it. */
  lemma SingleRowContigTakesNextLabels(s: ParserState, a: Row, d: Row, toFloat: string -> Option<real>)
    requires s.prevName.Some? && s.prevName.value != a.contig
    requires s.tgt.Some? && s.tgt.value.chimeric != ""
    requires d.contig != a.contig && d.chimeric != ""
    requires Run(s, [a, d], toFloat).Success?
    ensures var p := Run(s, [a, d], toFloat).value.out;
      && |p.features| == |s.out.features| + 2
      && |p.chimeric| == |s.out.chimeric| + 2
      && |p.editDist| == |s.out.editDist| + 2
      && |p.extensive| == |s.out.extensive| + 2
      && toFloat(d.editDist).Some?
      && p.features[|p.features| - 1] == [EncodeRow(a)]
      && (p.chimeric[|p.chimeric| - 1] == 0 <==> d.chimeric == "FALSE")
      && p.editDist[|p.editDist| - 1] == toFloat(d.editDist).value
      && (p.extensive[|p.extensive| - 1] == 0 <==> d.extensive == "")
  {
    assert [a, d][1..] == [d] && [d][1..] == [];
    assert Step(s, a, toFloat).Success?;
    StepEmits(s, a, toFloat);
    var s1 := Step(s, a, toFloat).value;
    assert Run(s, [a, d], toFloat) == Run(s1, [d], toFloat);
    assert Step(s1, d, toFloat).Success?;
    StepEmits(s1, d, toFloat);
    assert Run(s1, [d], toFloat) == Step(s1, d, toFloat);
  }
}
