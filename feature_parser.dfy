/**
 * The feature-table parser `pickle_data` of dl_code/utils.py.
 *
 * The table has already been decompressed and split into rows; a row keeps
 * the cells the parser reads: the contig id (column 0), the nucleotide
 * letter (column 3), the integer values of the feature columns (column 4 up
 * to two before the `chimeric` column) and the three label columns as text.
 * The parser walks the rows once, groups consecutive rows by contig id,
 * encodes every row it keeps as a byte vector and emits one feature matrix
 * and three labels each time a group is finished at a contig boundary.
 */
module FeatureParser {
  import opened Wrappers

  /** The element type of an encoded row: the `np.uint8` cast. */
  type Byte = x: int | 0 <= x < 256

  /** A feature matrix: the rows of one contig, stacked. */
  type Matrix = seq<seq<Byte>>

  /** One data row of the feature table, with the cells the parser reads. */
  datatype Row = Row(
    contig: string,
    letter: string,
    features: seq<int>,
    chimeric: string,
    editDist: string,
    extensive: string)

  /** The label fields captured for the pending group (`tgt`, `tgt_ed`, `tgt_ext`). */
  datatype Targets = Targets(chimeric: string, editDist: string, extensive: string)

  /** The exceptions a parse can end with. */
  datatype ParseError =
    | EmptyConcatenate  // `np.concatenate` of an empty list of rows
    | ShapeMismatch     // `np.concatenate` of rows of different widths
    | BadFloat          // `float(tgt_ed)` on text that is not a number

  /** The tuple the parser pickles: feature matrices, the three label lists and `name_to_id`. */
  datatype Parsed = Parsed(
    features: seq<Matrix>,
    chimeric: seq<int>,
    editDist: seq<real>,
    extensive: seq<int>,
    nameToId: map<string, nat>)

  /** The loop state: `prev_name`, the pending labels, the rows of the pending group,
      the output built so far and the next fresh id `idx`. */
  datatype ParserState = ParserState(
    prevName: Option<string>,
    tgt: Option<Targets>,
    feat: seq<seq<Byte>>,
    out: Parsed,
    idx: nat)

  const Init: ParserState := ParserState(None, None, [], Parsed([], [], [], [], map[]), 0)

  /** The letters with a one-hot slot of their own, slot i + 1 for Nucleotides[i]. */
  const Nucleotides: seq<string> := ["A", "C", "T", "G"]

  /** `letter_idx[row[3]]`: a `defaultdict(int)`, so any other letter reads slot 0. */
  function LetterSlot(letter: string): (slot: nat)
    ensures slot < 5
    ensures slot == 0 <==> letter !in Nucleotides
    ensures slot > 0 ==> Nucleotides[slot - 1] == letter
  {
    if letter == "A" then 1
    else if letter == "C" then 2
    else if letter == "T" then 3
    else if letter == "G" then 4
    else 0
  }

  /** `astype(np.uint8)`: two's-complement wrap-around to 8 bits. */
  function ToByte(v: int): (b: Byte)
    ensures 0 <= v < 256 ==> b == v
    ensures (v - b) % 256 == 0
  {
    v % 256
  }

  /** The encoded vector of one row: five one-hot slots, then the feature values as bytes. */
  function EncodeRow(r: Row): (e: seq<Byte>)
    ensures |e| == 5 + |r.features|
    ensures e[LetterSlot(r.letter)] == 1
    ensures forall i :: 0 <= i < 5 && i != LetterSlot(r.letter) ==> e[i] == 0
    ensures e[0] == 1 <==> r.letter !in Nucleotides
    ensures forall j :: 0 <= j < |r.features| ==> e[5 + j] == ToByte(r.features[j])
  {
    var slot := LetterSlot(r.letter);
    seq(5, i => if i == slot then 1 else 0) + seq(|r.features|, j requires 0 <= j < |r.features| => ToByte(r.features[j]))
  }

  /** The chimeric label: 0 exactly for the text "FALSE". */
  function ChimericLabel(field: string): (b: int)
    ensures b == 0 || b == 1
    ensures b == 0 <==> field == "FALSE"
  {
    if field == "FALSE" then 0 else 1
  }

  /** The extensive-misassembly label: 0 exactly for the empty text. */
  function ExtensiveLabel(field: string): (b: int)
    ensures b == 0 || b == 1
    ensures b == 0 <==> field == ""
  {
    if field == "" then 0 else 1
  }

  function TargetsOf(r: Row): Targets
  {
    Targets(r.chimeric, r.editDist, r.extensive)
  }

  predicate UniformWidth(m: seq<seq<Byte>>)
  {
    forall i, j :: 0 <= i < |m| && 0 <= j < |m| ==> |m[i]| == |m[j]|
  }

  /** `np.concatenate(feat, 0)` of one-row arrays: fails on no rows or on rows of different widths. */
  function Concatenate(feat: seq<seq<Byte>>): (r: Result<Matrix, ParseError>)
    ensures r.Success? <==> feat != [] && UniformWidth(feat)
    ensures r.Success? ==> r.value == feat
  {
    if feat == [] then Failure(EmptyConcatenate)
    else if !UniformWidth(feat) then Failure(ShapeMismatch)
    else Success(feat)
  }

  /** Appends the encoded row to the pending group and gives its contig the next id if it has none. */
  function AppendRow(s: ParserState, r: Row): ParserState
  {
    if r.contig in s.out.nameToId then
      s.(feat := s.feat + [EncodeRow(r)])
    else
      s.(feat := s.feat + [EncodeRow(r)],
         out := s.out.(nameToId := s.out.nameToId[r.contig := s.idx]),
         idx := s.idx + 1)
  }

  /** One iteration of the parsing loop. */
  function Step(s: ParserState, r: Row, toFloat: string -> Option<real>): Result<ParserState, ParseError>
  {
    var prev := s.prevName.GetOr(r.contig);
    var tgt := if s.tgt.Some? then s.tgt.value else TargetsOf(r);
    if r.contig == prev then
      Success(AppendRow(s.(prevName := Some(prev), tgt := Some(tgt)), r))
    else if tgt.chimeric == "" then
      // the finished group is dropped and this row is skipped (`continue`)
      Success(s.(prevName := Some(r.contig), tgt := None, feat := []))
    else
      match Concatenate(s.feat)
      case Failure(e) => Failure(e)
      case Success(m) =>
        match toFloat(tgt.editDist)
        case None => Failure(BadFloat)
        case Some(ed) =>
          var out := s.out.(
            features := s.out.features + [m],
            chimeric := s.out.chimeric + [ChimericLabel(tgt.chimeric)],
            editDist := s.out.editDist + [ed],
            extensive := s.out.extensive + [ExtensiveLabel(tgt.extensive)]);
          Success(AppendRow(ParserState(Some(r.contig), None, [], out, s.idx), r))
  }

  /** The loop over the remaining rows. */
  function Run(s: ParserState, rows: seq<Row>, toFloat: string -> Option<real>): Result<ParserState, ParseError>
    decreases |rows|
  {
    if rows == [] then Success(s)
    else
      match Step(s, rows[0], toFloat)
      case Failure(e) => Failure(e)
      case Success(s') => Run(s', rows[1..], toFloat)
  }

  /** What `pickle_data` dumps for a table: the output after the last row, with nothing finalised. */
  function ParseRows(rows: seq<Row>, toFloat: string -> Option<real>): Result<Parsed, ParseError>
  {
    match Run(Init, rows, toFloat)
    case Failure(e) => Failure(e)
    case Success(s) => Success(s.out)
  }

  /** The parsing loop of `pickle_data`, over already-split rows; `toFloat` stands for `float`. */
  method PickleData(rows: seq<Row>, toFloat: string -> Option<real>) returns (r: Result<Parsed, ParseError>)
    ensures r == ParseRows(rows, toFloat)
  {
    var featContig: seq<Matrix> := [];
    var targetContig: seq<int> := [];
    var targetContigEdit: seq<real> := [];
    var targetContigExt: seq<int> := [];
    var nameToId: map<string, nat> := map[];
    var idx: nat := 0;
    var prevName: Option<string> := None;
    var tgt: Option<Targets> := None;
    var feat: seq<seq<Byte>> := [];
    var i := 0;
    while i < |rows|
      invariant i <= |rows|
      invariant Run(ParserState(prevName, tgt, feat,
                                Parsed(featContig, targetContig, targetContigEdit, targetContigExt, nameToId), idx),
                    rows[i..], toFloat)
                == Run(Init, rows, toFloat)
    {
      var row := rows[i];
      assert rows[i..][0] == row && rows[i..][1..] == rows[i + 1..];
      ghost var before := ParserState(prevName, tgt, feat,
                                      Parsed(featContig, targetContig, targetContigEdit, targetContigExt, nameToId), idx);
      if prevName.None? {
        prevName := Some(row.contig);
      }
      if tgt.None? {
        tgt := Some(TargetsOf(row));
      }
      if row.contig != prevName.value {
        prevName := Some(row.contig);
        if tgt.value.chimeric == "" {
          tgt := None;
          feat := [];
          i := i + 1;
          continue;
        }
        var stacked := Concatenate(feat);
        if stacked.Failure? {
          return Failure(stacked.error);
        }
        featContig := featContig + [stacked.value];
        targetContig := targetContig + [ChimericLabel(tgt.value.chimeric)];
        var ed := toFloat(tgt.value.editDist);
        if ed.None? {
          return Failure(BadFloat);
        }
        targetContigEdit := targetContigEdit + [ed.value];
        targetContigExt := targetContigExt + [ExtensiveLabel(tgt.value.extensive)];
        feat := [];
        tgt := None;
      }
      ghost var mid := ParserState(prevName, tgt, feat,
                                   Parsed(featContig, targetContig, targetContigEdit, targetContigExt, nameToId), idx);
      assert Step(before, row, toFloat) == Success(AppendRow(mid, row));
      feat := feat + [EncodeRow(row)];
      if row.contig !in nameToId {
        nameToId := nameToId[row.contig := idx];
        idx := idx + 1;
      }
      assert ParserState(prevName, tgt, feat,
                         Parsed(featContig, targetContig, targetContigEdit, targetContigExt, nameToId), idx)
          == AppendRow(mid, row);
      i := i + 1;
    }
    return Success(Parsed(featContig, targetContig, targetContigEdit, targetContigExt, nameToId));
  }
}
