/** The pulse-extraction engine of `SignalProcessor`: per channel, denoise
    (median filter), detect edges (first difference), infer whether the
    capture window opened inside a pulse (alternating gap sums), pair the
    edges into pulse records and classify the channel as rising or falling.

    A pandas DataFrame is an ordered sequence of named columns; a Python
    dict built by iterating over those columns is an ordered sequence of
    (key, value) pairs. */
module SignalProcessing {
  import opened Wrappers
  import opened ArrayOps
  import opened MedianFilter

  datatype Column = Column(name: string, values: seq<int>)

  type Frame = seq<Column>

  type Dict<V> = seq<(string, V)>

  /** One pulse: `np.append([start, end], width)`. */
  datatype PulseRecord = PulseRecord(start: int, end: int, width: int)

  /** The exceptions the engine raises: `np.split(points, 0)` (a
      `ZeroDivisionError`, since numpy computes `len(points) % 0` before
      checking the section count) and indexing `[0]` of an empty index
      array (an `IndexError`). */
  datatype ProcessError = SplitIntoZeroSections | IndexOutOfBounds

  function Names(df: Frame): (r: seq<string>)
    ensures |r| == |df| && forall i :: 0 <= i < |df| ==> r[i] == df[i].name
  {
    seq(|df|, i requires 0 <= i < |df| => df[i].name)
  }

  function Keys<V>(d: Dict<V>): (r: seq<string>)
    ensures |r| == |d| && forall i :: 0 <= i < |d| ==> r[i] == d[i].0
  {
    seq(|d|, i requires 0 <= i < |d| => d[i].0)
  }

  // ---------------------------------------------------------------------
  // Denoiser and edge detector

  /** `_filter_noise`: the median filter applied column by column. */
  function FilterNoise(df: Frame, wsize: nat): (r: Frame)
    requires wsize % 2 == 1
    requires forall i :: 0 <= i < |df| ==> IsBinary(df[i].values)
    ensures Names(r) == Names(df)
    ensures forall i :: 0 <= i < |r| ==>
              r[i].values == MedFilt(df[i].values, wsize) &&
              |r[i].values| == |df[i].values| && IsBinary(r[i].values)
  {
    seq(|df|, i requires 0 <= i < |df| => Column(df[i].name, MedFilt(df[i].values, wsize)))
  }

  /** `_find_pulse_pivots`: the edge series of every column. */
  function FindPulsePivots(df: Frame): (r: Frame)
    ensures Names(r) == Names(df)
    ensures forall i :: 0 <= i < |r| ==>
              |r[i].values| == (if |df[i].values| == 0 then 0 else |df[i].values| - 1) &&
              forall t :: 0 <= t < |r[i].values| ==> r[i].values[t] == df[i].values[t + 1] - df[i].values[t]
  {
    seq(|df|, i requires 0 <= i < |df| => Column(df[i].name, Diff(df[i].values)))
  }

  predicate IsEdge(x: int) { x != 0 }

  predicate IsRisingEdge(x: int) { x == 1 }

  /** `np.atleast_1d(pivots).nonzero()[0]`: the edge locations. */
  function EdgeIndices(pivots: seq<int>): seq<int>
  {
    Where(pivots, IsEdge)
  }

  // ---------------------------------------------------------------------
  // Polarity resolver

  /** `_is_start_from_pulse`: the gaps between consecutive edges at even
      positions sum to strictly less than those at odd positions. */
  predicate StartsFromPulse(pivots: seq<int>)
  {
    var gaps := Diff(EdgeIndices(pivots));
    Sum(EveryOther(gaps)) < Sum(OddPositions(gaps))
  }

  /** With at most two edges the channel never counts as started from a
      pulse: no gaps sum to 0 < 0, and one gap is positive. */
  lemma FewEdgesStartIdle(pivots: seq<int>)
    requires |EdgeIndices(pivots)| <= 2
    ensures !StartsFromPulse(pivots)
  {
    var idx := EdgeIndices(pivots);
    var gaps := Diff(idx);
    if |idx| == 2 {
      assert EveryOther(gaps) == [gaps[0]] && OddPositions(gaps) == [];
      assert Sum([gaps[0]]) == Sum([]) + gaps[0];
    } else {
      assert gaps == [];
    }
  }

  // ---------------------------------------------------------------------
  // Pulse segmenter

  /** Position of the first edge used as a pulse start: 0 when the channel
      started from a pulse, 1 when the first edge is skipped. */
  function FirstStart(pivots: seq<int>): nat
  {
    if StartsFromPulse(pivots) then 0 else 1
  }

  /** Drop a trailing unmatched point. */
  function EvenLength(points: seq<int>): (r: seq<int>)
    ensures |r| % 2 == 0 && |r| == |points| / 2 * 2 && r == points[..|r|]
  {
    if |points| % 2 != 0 then points[..|points| - 1] else points
  }

  /** `np.split(points, len(points) // 2)` on an even-length list with at
      least one pair: consecutive points two by two. */
  function SplitPairs(points: seq<int>): (r: seq<(int, int)>)
    requires |points| % 2 == 0
    ensures |r| == |points| / 2
    ensures forall k :: 0 <= k < |r| ==> r[k] == (points[2 * k], points[2 * k + 1])
  {
    seq(|points| / 2, k requires 0 <= k < |points| / 2 => (points[2 * k], points[2 * k + 1]))
  }

  /** `[np.append(point, width) for point, width in zip(pairs, widths)]`;
      `zip` stops at the shorter list. */
  function ZipRecords(pairs: seq<(int, int)>, widths: seq<int>): (r: seq<PulseRecord>)
    ensures |r| == if |pairs| <= |widths| then |pairs| else |widths|
    ensures forall k :: 0 <= k < |r| ==> r[k] == PulseRecord(pairs[k].0, pairs[k].1, widths[k])
  {
    seq(if |pairs| <= |widths| then |pairs| else |widths|,
        k requires 0 <= k < |pairs| && k < |widths| => PulseRecord(pairs[k].0, pairs[k].1, widths[k]))
  }

  /** The body of `_signal_pulse_points_width` once the edge locations and
      the polarity flag are known. The candidate points are every edge when
      the channel started from a pulse and every edge but the first
      otherwise, with the matching stride of gaps as widths; an odd
      candidate list loses its last point; an empty one makes
      `np.split(points, 0)` raise. */
  function Segment(idx: seq<int>, fromPulse: bool): Result<seq<PulseRecord>, ProcessError>
  {
    var gaps := Diff(idx);
    var points := if fromPulse then idx else if idx == [] then [] else idx[1..];
    var widths := if fromPulse then EveryOther(gaps) else OddPositions(gaps);
    var even := EvenLength(points);
    if |even| / 2 == 0 then Failure(SplitIntoZeroSections)
    else Success(ZipRecords(SplitPairs(even), widths))
  }

  /** `_signal_pulse_points_width`. */
  function PulsePointsWidth(pivots: seq<int>): Result<seq<PulseRecord>, ProcessError>
  {
    Segment(EdgeIndices(pivots), StartsFromPulse(pivots))
  }

  /** `rs` pairs the edge locations `idx` from position `off` on: record
      `k` runs from `idx[off + 2k]` to `idx[off + 2k + 1]`, its width is
      the distance between them, and there is one record per complete pair. */
  ghost predicate PairsEdgesFrom(rs: seq<PulseRecord>, idx: seq<int>, off: nat)
  {
    off <= |idx| && |rs| == (|idx| - off) / 2 &&
    forall k :: 0 <= k < |rs| ==>
      rs[k] == PulseRecord(idx[off + 2 * k], idx[off + 2 * k + 1], idx[off + 2 * k + 1] - idx[off + 2 * k])
  }

  /** Zipping the pairs of candidates `idx[off..]` with the gaps inside
      each pair gives records that pair the candidates two by two. */
  lemma ZipPairsEdges(idx: seq<int>, off: nat, widths: seq<int>)
    requires off <= |idx| && |widths| == (|idx| - off) / 2
    requires forall k :: 0 <= k < |widths| ==> widths[k] == idx[off + 2 * k + 1] - idx[off + 2 * k]
    ensures PairsEdgesFrom(ZipRecords(SplitPairs(EvenLength(idx[off..])), widths), idx, off)
  {
    var points := idx[off..];
    var pairs := SplitPairs(EvenLength(points));
    var rs := ZipRecords(pairs, widths);
    forall k | 0 <= k < |rs|
      ensures rs[k] == PulseRecord(idx[off + 2 * k], idx[off + 2 * k + 1], idx[off + 2 * k + 1] - idx[off + 2 * k])
    {
      assert pairs[k] == (points[2 * k], points[2 * k + 1]);
    }
  }

  /** Segmentation succeeds exactly when at least two candidate points
      remain, and then pairs the candidates two by two. */
  lemma SegmentPairsCandidates(idx: seq<int>, fromPulse: bool)
    ensures var off := if fromPulse then 0 else 1;
            (Segment(idx, fromPulse).Success? <==> |idx| - off >= 2) &&
            (Segment(idx, fromPulse).Success? ==> PairsEdgesFrom(Segment(idx, fromPulse).value, idx, off))
  {
    var off := if fromPulse then 0 else 1;
    var gaps := Diff(idx);
    if |idx| - off < 2 {
      var points := if fromPulse then idx else if idx == [] then [] else idx[1..];
      assert |EvenLength(points)| / 2 == 0;
    } else if fromPulse {
      var widths := EveryOther(gaps);
      assert forall k :: 0 <= k < |widths| ==> widths[k] == gaps[2 * k];
      assert idx[0..] == idx;
      ZipPairsEdges(idx, 0, widths);
    } else {
      var widths := OddPositions(gaps);
      assert forall k :: 0 <= k < |widths| ==> widths[k] == gaps[1 + 2 * k];
      ZipPairsEdges(idx, 1, widths);
    }
  }

  /** Segmentation fails exactly when the channel has fewer than three
      edges; otherwise it yields `floor(m / 2)` records for the `m`
      candidate edges, each made of two consecutive edges. */
  lemma PulseRecordsPairConsecutiveEdges(pivots: seq<int>)
    ensures PulsePointsWidth(pivots).Success? <==> |EdgeIndices(pivots)| >= 3
    ensures PulsePointsWidth(pivots).Success? ==>
              PairsEdgesFrom(PulsePointsWidth(pivots).value, EdgeIndices(pivots), FirstStart(pivots))
  {
    var idx, fromPulse := EdgeIndices(pivots), StartsFromPulse(pivots);
    if |idx| <= 2 {
      FewEdgesStartIdle(pivots);
    }
    SegmentPairsCandidates(idx, fromPulse);
  }

  /** The widths of a list of records, in order. */
  function Widths(rs: seq<PulseRecord>): (r: seq<int>)
    ensures |r| == |rs| && forall k :: 0 <= k < |rs| ==> r[k] == rs[k].width
  {
    seq(|rs|, k requires 0 <= k < |rs| => rs[k].width)
  }

  predicate StrictlyIncreasing(idx: seq<int>)
  {
    forall k, l :: 0 <= k < l < |idx| ==> idx[k] < idx[l]
  }

  /** Every record ends after it starts, at a non-negative location, its
      width is the distance between the two, and it ends before the next
      record starts. */
  predicate RecordsOrdered(rs: seq<PulseRecord>)
  {
    (forall k :: 0 <= k < |rs| ==> 0 <= rs[k].start < rs[k].end && rs[k].width == rs[k].end - rs[k].start) &&
    (forall k, l :: 0 <= k < l < |rs| ==> rs[k].end < rs[l].start)
  }

  /** Records that pair increasing, non-negative locations two by two are
      ordered and disjoint. */
  lemma PairedRecordsOrdered(rs: seq<PulseRecord>, idx: seq<int>, off: nat)
    requires PairsEdgesFrom(rs, idx, off) && StrictlyIncreasing(idx)
    requires forall k :: 0 <= k < |idx| ==> 0 <= idx[k]
    ensures RecordsOrdered(rs)
  {
    forall k | 0 <= k < |rs| ensures 0 <= rs[k].start < rs[k].end && rs[k].width == rs[k].end - rs[k].start {
      assert rs[k] == PulseRecord(idx[off + 2 * k], idx[off + 2 * k + 1], idx[off + 2 * k + 1] - idx[off + 2 * k]);
    }
    forall k, l | 0 <= k < l < |rs| ensures rs[k].end < rs[l].start {
      assert rs[k].end == idx[off + 2 * k + 1];
      assert rs[l].start == idx[off + 2 * l];
    }
  }

  /** Records that pair the locations from position 0 have the even-indexed
      gaps as widths, from position 1 the odd-indexed gaps. */
  lemma PairedWidthsAreGaps(rs: seq<PulseRecord>, idx: seq<int>, off: nat)
    requires PairsEdgesFrom(rs, idx, off) && off <= 1
    ensures off == 0 ==> Widths(rs) == EveryOther(Diff(idx))
    ensures off == 1 ==> Widths(rs) == OddPositions(Diff(idx))
  {
    var gaps, ws := Diff(idx), Widths(rs);
    forall k | 0 <= k < |ws| ensures ws[k] == gaps[off + 2 * k] {
      assert rs[k] == PulseRecord(idx[off + 2 * k], idx[off + 2 * k + 1], idx[off + 2 * k + 1] - idx[off + 2 * k]);
    }
    if off == 0 {
      var stride := EveryOther(gaps);
      assert |ws| == |stride|;
      assert forall k :: 0 <= k < |ws| ==> ws[k] == stride[k];
      assert ws == stride;
    } else {
      var stride := OddPositions(gaps);
      assert |ws| == |stride|;
      assert forall k :: 0 <= k < |ws| ==> ws[k] == stride[k];
      assert ws == stride;
    }
  }

  /** Records are strictly increasing and do not overlap: every pulse ends
      after it starts and before the next one starts. */
  lemma PulseRecordsOrdered(pivots: seq<int>)
    requires PulsePointsWidth(pivots).Success?
    ensures RecordsOrdered(PulsePointsWidth(pivots).value)
  {
    var idx, rs, off := EdgeIndices(pivots), PulsePointsWidth(pivots).value, FirstStart(pivots);
    assert PairsEdgesFrom(rs, idx, off) by {
      PulseRecordsPairConsecutiveEdges(pivots);
    }
    assert StrictlyIncreasing(idx) && forall k :: 0 <= k < |idx| ==> 0 <= idx[k];
    PairedRecordsOrdered(rs, idx, off);
  }

  /** The sum of the widths of the records is the smaller of the two
      alternating gap sums: the polarity flag picks the pairing whose pulses
      are narrower in total. */
  lemma TotalWidthIsSmallerGapSum(pivots: seq<int>)
    requires PulsePointsWidth(pivots).Success?
    ensures var gaps := Diff(EdgeIndices(pivots));
            var even, odd := Sum(EveryOther(gaps)), Sum(OddPositions(gaps));
            Sum(Widths(PulsePointsWidth(pivots).value)) == if even < odd then even else odd
  {
    PulseRecordsPairConsecutiveEdges(pivots);
    PairedWidthsAreGaps(PulsePointsWidth(pivots).value, EdgeIndices(pivots), FirstStart(pivots));
  }

  // ---------------------------------------------------------------------
  // Channel polarity

  /** `_is_rising_signal`: whether the first edge is the first rising edge,
      inverted when the first edge is skipped. Fails when there is no edge
      or no rising edge. */
  function IsRisingSignal(pivots: seq<int>): Result<bool, ProcessError>
  {
    var allIndices := EdgeIndices(pivots);
    var risingEdges := Where(pivots, IsRisingEdge);
    if |allIndices| == 0 || |risingEdges| == 0 then Failure(IndexOutOfBounds)
    else
      var firstEdgeIsRising := allIndices[0] == risingEdges[0];
      Success(if StartsFromPulse(pivots) then firstEdgeIsRising else !firstEdgeIsRising)
  }

  /** Some step of the edge series is +1. */
  predicate HasRisingEdge(pivots: seq<int>)
  {
    exists t :: 0 <= t < |pivots| && pivots[t] == 1
  }

  /** The classification fails exactly when no entry is +1, and otherwise
      compares "the first edge is a +1 step" with the polarity flag. */
  lemma IsRisingSignalMeaning(pivots: seq<int>)
    ensures IsRisingSignal(pivots).Success? <==> HasRisingEdge(pivots)
    ensures IsRisingSignal(pivots).Success? ==>
              var first := EdgeIndices(pivots)[0];
              IsRisingSignal(pivots).value == (StartsFromPulse(pivots) == (pivots[first] == 1))
  {
    var allIndices := EdgeIndices(pivots);
    var risingEdges := Where(pivots, IsRisingEdge);
    if |risingEdges| > 0 {
      var r0 := risingEdges[0];
      assert IsRisingEdge(pivots[r0]);
      WhereComplete(pivots, IsEdge, r0);
      assert IsEdge(pivots[r0]);
      var m :| 0 <= m < |allIndices| && allIndices[m] == r0;
      assert allIndices[0] <= r0;
      if pivots[allIndices[0]] == 1 {
        WhereComplete(pivots, IsRisingEdge, allIndices[0]);
        var n :| 0 <= n < |risingEdges| && risingEdges[n] == allIndices[0];
        assert risingEdges[0] <= risingEdges[n];
      }
    } else {
      forall i | 0 <= i < |pivots| ensures pivots[i] != 1 {
        if pivots[i] == 1 {
          WhereComplete(pivots, IsRisingEdge, i);
        }
      }
    }
  }

  // ---------------------------------------------------------------------
  // Binary columns: edges alternate

  /** A binary column keeps its value between two consecutive edges. */
  lemma {:induction false} FlatBetweenEdges(s: seq<int>, a: nat, b: nat)
    requires a <= b < |s|
    requires forall t :: a <= t < b ==> Diff(s)[t] == 0
    ensures s[b] == s[a]
    decreases b - a
  {
    if a < b {
      assert Diff(s)[a] == 0;
      FlatBetweenEdges(s, a + 1, b);
    }
  }

  /** Every edge of a binary column is a +1 or a -1 step. */
  lemma EdgeIsUnitStep(s: seq<int>, a: nat)
    requires IsBinary(s) && a < |Diff(s)| && Diff(s)[a] != 0
    ensures Diff(s)[a] == 1 || Diff(s)[a] == -1
  {
    assert Diff(s)[a] == s[a + 1] - s[a];
    assert s[a] in {0, 1} && s[a + 1] in {0, 1};
  }

  /** In the edge series of a binary column, consecutive edges have
      opposite signs. */
  lemma EdgesAlternate(s: seq<int>, j: nat)
    requires IsBinary(s)
    requires j + 1 < |EdgeIndices(Diff(s))|
    ensures var e, idx := Diff(s), EdgeIndices(Diff(s));
            e[idx[j + 1]] == -e[idx[j]]
  {
    var e, idx := Diff(s), EdgeIndices(Diff(s));
    var a, b := idx[j], idx[j + 1];
    forall t | a + 1 <= t < b ensures e[t] == 0 {
      WhereHasNoGaps(e, IsEdge, j, t);
    }
    FlatBetweenEdges(s, a + 1, b);
    assert e[a] == s[a + 1] - s[a] && e[b] == s[b + 1] - s[b];
    assert s[a] in {0, 1} && s[a + 1] in {0, 1} && s[b + 1] in {0, 1};
    assert IsEdge(e[a]) && IsEdge(e[b]);
  }

  /** The edges `idx` of the series `e` are unit steps of alternating sign. */
  predicate Alternates(e: seq<int>, idx: seq<int>)
  {
    (forall j :: 0 <= j < |idx| ==> 0 <= idx[j] < |e| && (e[idx[j]] == 1 || e[idx[j]] == -1)) &&
    (forall j :: 0 <= j < |idx| - 1 ==> e[idx[j + 1]] == -e[idx[j]])
  }

  /** The edges of a binary column alternate between +1 and -1. */
  lemma BinaryEdgesAlternate(s: seq<int>)
    requires IsBinary(s)
    ensures Alternates(Diff(s), EdgeIndices(Diff(s)))
  {
    var e, idx := Diff(s), EdgeIndices(Diff(s));
    forall j | 0 <= j < |idx| ensures 0 <= idx[j] < |e| && (e[idx[j]] == 1 || e[idx[j]] == -1) {
      assert IsEdge(e[idx[j]]);
      EdgeIsUnitStep(s, idx[j]);
    }
    forall j | 0 <= j < |idx| - 1 ensures e[idx[j + 1]] == -e[idx[j]] {
      EdgesAlternate(s, j);
    }
  }

  /** Alternating edges: the even-numbered ones carry the sign of the first
      edge, the odd-numbered ones the opposite sign. */
  lemma {:induction false} AlternatingSign(e: seq<int>, idx: seq<int>, j: nat)
    requires Alternates(e, idx) && j < |idx|
    ensures e[idx[j]] == if j % 2 == 0 then e[idx[0]] else -e[idx[0]]
  {
    if j > 0 {
      AlternatingSign(e, idx, j - 1);
      assert e[idx[j]] == -e[idx[j - 1]];
    }
  }

  /** Records pairing alternating edges from position `off` open on the
      sign of the first edge when `off` is 0 and on the opposite sign when
      it is 1, and close on the sign opposite to their opening. */
  lemma PairedEdgeSigns(e: seq<int>, idx: seq<int>, rs: seq<PulseRecord>, off: nat)
    requires Alternates(e, idx) && PairsEdgesFrom(rs, idx, off) && off <= 1
    ensures forall k :: 0 <= k < |rs| ==>
              0 <= rs[k].start < |e| && 0 <= rs[k].end < |e| &&
              e[rs[k].start] == (if off == 0 then e[idx[0]] else -e[idx[0]]) &&
              e[rs[k].end] == -e[rs[k].start]
  {
    forall k | 0 <= k < |rs|
      ensures 0 <= rs[k].start < |e| && 0 <= rs[k].end < |e|
      ensures e[rs[k].start] == (if off == 0 then e[idx[0]] else -e[idx[0]])
      ensures e[rs[k].end] == -e[rs[k].start]
    {
      var j := off + 2 * k;
      assert rs[k].start == idx[j] && rs[k].end == idx[j + 1];
      assert j % 2 == off;
      AlternatingSign(e, idx, j);
    }
  }

  /** Records whose opening steps carry the polarity-adjusted sign of the
      first edge open on +1 and close on -1 exactly when `rising` says so. */
  lemma SignsFollowPolarity(e: seq<int>, rs: seq<PulseRecord>, first: int, fromPulse: bool, rising: bool)
    requires (first == 1 || first == -1) && rising == (fromPulse == (first == 1))
    requires forall k :: 0 <= k < |rs| ==>
               0 <= rs[k].start < |e| && 0 <= rs[k].end < |e| &&
               e[rs[k].start] == (if fromPulse then first else -first) && e[rs[k].end] == -e[rs[k].start]
    ensures forall k :: 0 <= k < |rs| ==>
              0 <= rs[k].start < |e| && 0 <= rs[k].end < |e| &&
              (e[rs[k].start] == 1 <==> rising) && (e[rs[k].end] == -1 <==> rising)
  {
  }

  /** The meaning of the rising flag on a denoised (binary) column: the
      channel is rising exactly when its pulses open on a +1 edge and close
      on a -1 edge, that is, when its pulses are high levels. */
  lemma RisingMeansPulsesAreHigh(s: seq<int>)
    requires IsBinary(s)
    requires PulsePointsWidth(Diff(s)).Success? && IsRisingSignal(Diff(s)).Success?
    ensures var e, rs := Diff(s), PulsePointsWidth(Diff(s)).value;
            forall k :: 0 <= k < |rs| ==>
              0 <= rs[k].start < |e| && 0 <= rs[k].end < |e| &&
              (e[rs[k].start] == 1 <==> IsRisingSignal(e).value) &&
              (e[rs[k].end] == -1 <==> IsRisingSignal(e).value)
  {
    var e := Diff(s);
    var idx, rs, off := EdgeIndices(e), PulsePointsWidth(e).value, FirstStart(e);
    assert |idx| >= 3 && PairsEdgesFrom(rs, idx, off) by {
      PulseRecordsPairConsecutiveEdges(e);
    }
    var rising, fromPulse, first := IsRisingSignal(e).value, StartsFromPulse(e), e[idx[0]];
    assert rising == (fromPulse == (first == 1)) by {
      IsRisingSignalMeaning(e);
    }
    assert Alternates(e, idx) by {
      BinaryEdgesAlternate(s);
    }
    assert off == if fromPulse then 0 else 1;
    PairedEdgeSigns(e, idx, rs, off);
    SignsFollowPolarity(e, rs, first, fromPulse, rising);
  }

  /** A binary column with at least two edges has a rising edge, so its
      classification cannot fail. */
  lemma TwoEdgesGiveRisingEdge(s: seq<int>)
    requires IsBinary(s) && |EdgeIndices(Diff(s))| >= 2
    ensures HasRisingEdge(Diff(s))
  {
    var e, idx := Diff(s), EdgeIndices(Diff(s));
    BinaryEdgesAlternate(s);
    if e[idx[0]] == 1 {
      assert HasRisingEdge(e) by { assert 0 <= idx[0] < |e|; }
    } else {
      assert e[idx[1]] == 1;
      assert HasRisingEdge(e) by { assert 0 <= idx[1] < |e|; }
    }
  }

  // ---------------------------------------------------------------------
  // Per-channel dictionaries

  /** The loop of `_calculate_pulse_metrics`, over the columns in order,
      with the per-column segmentation as the parameter `segment`: each
      column's records go into `pulse_points_width` and their number into
      `pulse_count`; the first column whose segmentation raises aborts the
      loop with that exception. */
  method FillPulseMetrics(pivots: Frame, segment: seq<int> -> Result<seq<PulseRecord>, ProcessError>)
    returns (r: Result<(Dict<nat>, Dict<seq<PulseRecord>>), ProcessError>)
    ensures r.Success? <==> forall i :: 0 <= i < |pivots| ==> segment(pivots[i].values).Success?
    ensures r.Failure? ==>
              exists i :: 0 <= i < |pivots| && segment(pivots[i].values) == Failure(r.error) &&
                          forall j :: 0 <= j < i ==> segment(pivots[j].values).Success?
    ensures r.Success? ==>
              var (count, records) := r.value;
              Keys(count) == Names(pivots) && Keys(records) == Names(pivots) &&
              forall i :: 0 <= i < |pivots| ==>
                segment(pivots[i].values) == Success(records[i].1) && count[i].1 == |records[i].1|
  {
    var count: Dict<nat> := [];
    var records: Dict<seq<PulseRecord>> := [];
    var i := 0;
    while i < |pivots|
      invariant 0 <= i <= |pivots|
      invariant |count| == i && |records| == i
      invariant forall j :: 0 <= j < i ==>
                  count[j].0 == pivots[j].name && records[j].0 == pivots[j].name &&
                  segment(pivots[j].values) == Success(records[j].1) &&
                  count[j].1 == |records[j].1|
    {
      var col := pivots[i];
      var pointsWidth := segment(col.values);
      if pointsWidth.Failure? {
        return Failure(pointsWidth.error);
      }
      records := records + [(col.name, pointsWidth.value)];
      count := count + [(col.name, |pointsWidth.value|)];
      i := i + 1;
    }
    r := Success((count, records));
  }

  /** `_calculate_pulse_metrics`: it succeeds exactly when every channel has
      at least three edges, and then holds each channel's records and their
      number under the channel's name, in column order. */
  method CalculatePulseMetrics(pivots: Frame) returns (r: Result<(Dict<nat>, Dict<seq<PulseRecord>>), ProcessError>)
    ensures r.Success? <==> forall i :: 0 <= i < |pivots| ==> |EdgeIndices(pivots[i].values)| >= 3
    ensures r.Failure? ==> r.error == SplitIntoZeroSections
    ensures r.Success? ==>
              var (count, records) := r.value;
              Keys(count) == Names(pivots) && Keys(records) == Names(pivots) &&
              forall i :: 0 <= i < |pivots| ==>
                PulsePointsWidth(pivots[i].values) == Success(records[i].1) &&
                count[i].1 == |records[i].1|
  {
    r := FillPulseMetrics(pivots, PulsePointsWidth);
    forall i | 0 <= i < |pivots|
      ensures PulsePointsWidth(pivots[i].values).Success? <==> |EdgeIndices(pivots[i].values)| >= 3
    {
      PulseRecordsPairConsecutiveEdges(pivots[i].values);
    }
    if r.Failure? {
      var i :| 0 <= i < |pivots| && PulsePointsWidth(pivots[i].values) == Failure(r.error);
    }
  }

  /** A dict comprehension over the columns in order whose per-column step
      `f` may raise: the first column whose step raises aborts it with that
      exception. */
  function MapColumns<T>(pivots: Frame, f: seq<int> -> Result<T, ProcessError>): (r: Result<Dict<T>, ProcessError>)
    ensures r.Success? <==> forall i :: 0 <= i < |pivots| ==> f(pivots[i].values).Success?
    ensures r.Failure? ==>
              exists i :: 0 <= i < |pivots| && f(pivots[i].values) == Failure(r.error) &&
                          forall j :: 0 <= j < i ==> f(pivots[j].values).Success?
    ensures r.Success? ==>
              Keys(r.value) == Names(pivots) &&
              forall i :: 0 <= i < |pivots| ==> f(pivots[i].values) == Success(r.value[i].1)
  {
    if pivots == [] then Success([])
    else
      match f(pivots[0].values)
      case Failure(e) => Failure(e)
      case Success(v) =>
        match MapColumns(pivots[1..], f)
        case Failure(e) =>
          assert exists i :: 0 <= i < |pivots| - 1 && f(pivots[1..][i].values) == Failure(e) &&
                             forall j :: 0 <= j < i ==> f(pivots[1..][j].values).Success?;
          Failure(e)
        case Success(rest) => Success([(pivots[0].name, v)] + rest)
  }

  /** `_determine_rising_signals`: the rising flag of every column, or the
      exception of the first column that has no rising edge. */
  function DetermineRisingSignals(pivots: Frame): (r: Result<Dict<bool>, ProcessError>)
    ensures r.Success? <==> forall i :: 0 <= i < |pivots| ==> HasRisingEdge(pivots[i].values)
    ensures r.Failure? ==> r.error == IndexOutOfBounds
    ensures r.Success? ==>
              Keys(r.value) == Names(pivots) &&
              forall i :: 0 <= i < |pivots| ==> IsRisingSignal(pivots[i].values) == Success(r.value[i].1)
  {
    var r := MapColumns(pivots, IsRisingSignal);
    assert forall i :: 0 <= i < |pivots| ==>
             (IsRisingSignal(pivots[i].values).Success? <==> HasRisingEdge(pivots[i].values)) by {
      forall i | 0 <= i < |pivots| {
        IsRisingSignalMeaning(pivots[i].values);
      }
    }
    r
  }

  /** The `pulse_points` view: the first two fields of every record. */
  function PointsView(pointsWidth: Dict<seq<PulseRecord>>): (r: Dict<seq<(int, int)>>)
    ensures Keys(r) == Keys(pointsWidth)
    ensures forall i :: 0 <= i < |r| ==>
              |r[i].1| == |pointsWidth[i].1| &&
              forall k :: 0 <= k < |r[i].1| ==> r[i].1[k] == (pointsWidth[i].1[k].start, pointsWidth[i].1[k].end)
  {
    seq(|pointsWidth|, i requires 0 <= i < |pointsWidth| =>
      (pointsWidth[i].0, seq(|pointsWidth[i].1|, k requires 0 <= k < |pointsWidth[i].1| =>
        (pointsWidth[i].1[k].start, pointsWidth[i].1[k].end))))
  }

  /** The `pulse_width` view: the third field of every record. */
  function WidthView(pointsWidth: Dict<seq<PulseRecord>>): (r: Dict<seq<int>>)
    ensures Keys(r) == Keys(pointsWidth)
    ensures forall i :: 0 <= i < |r| ==>
              |r[i].1| == |pointsWidth[i].1| &&
              forall k :: 0 <= k < |r[i].1| ==> r[i].1[k] == pointsWidth[i].1[k].width
  {
    seq(|pointsWidth|, i requires 0 <= i < |pointsWidth| =>
      (pointsWidth[i].0, seq(|pointsWidth[i].1|, k requires 0 <= k < |pointsWidth[i].1| =>
        pointsWidth[i].1[k].width)))
  }

  /** True of the records produced for every channel by segmentation. */
  ghost predicate RecordsAreSegmentation(pivots: Frame, records: Dict<seq<PulseRecord>>)
  {
    |records| == |pivots| &&
    forall i :: 0 <= i < |pivots| ==> PulsePointsWidth(pivots[i].values) == Success(records[i].1)
  }

  /** The engine built from one captured frame. Every field is computed once,
      in order, by the constructor, and never changes afterwards. */
  class SignalProcessor {
    const signalsDf: Frame
    const wsize: nat
    const filteredSignalsDf: Frame
    const pulsePivotsDf: Frame
    const pulseCount: Dict<nat>
    const pulsePointsWidth: Dict<seq<PulseRecord>>
    const risingSignals: Dict<bool>

    /** The fields are the successive stages applied to `signalsDf`. */
    ghost predicate Valid()
    {
      wsize % 2 == 1 &&
      (forall i :: 0 <= i < |signalsDf| ==> IsBinary(signalsDf[i].values)) &&
      filteredSignalsDf == FilterNoise(signalsDf, wsize) &&
      pulsePivotsDf == FindPulsePivots(filteredSignalsDf) &&
      Keys(pulseCount) == Names(signalsDf) && Keys(pulsePointsWidth) == Names(signalsDf) &&
      RecordsAreSegmentation(pulsePivotsDf, pulsePointsWidth) &&
      (forall i :: 0 <= i < |pulseCount| ==> pulseCount[i].1 == |pulsePointsWidth[i].1|) &&
      DetermineRisingSignals(pulsePivotsDf) == Success(risingSignals)
    }

    /** `SignalProcessor.__init__` on input it accepts: filter, find the
        pivots, compute the metrics, then the rising flags. On binary input
        with an odd window this succeeds exactly when every channel keeps at
        least three edges after filtering, which is what it requires. */
    constructor (signalsDf: Frame, wsize: nat)
      requires wsize % 2 == 1
      requires forall i :: 0 <= i < |signalsDf| ==> IsBinary(signalsDf[i].values)
      requires forall i :: 0 <= i < |signalsDf| ==> |EdgeIndices(Diff(MedFilt(signalsDf[i].values, wsize)))| >= 3
      ensures Valid() && this.signalsDf == signalsDf && this.wsize == wsize
    {
      var filtered := FilterNoise(signalsDf, wsize);
      var pivots := FindPulsePivots(filtered);
      assert forall i :: 0 <= i < |pivots| ==> pivots[i].values == Diff(MedFilt(signalsDf[i].values, wsize));
      var metrics := CalculatePulseMetrics(pivots);
      var (count, records) := metrics.value;
      assert forall i :: 0 <= i < |pivots| ==> HasRisingEdge(pivots[i].values) by {
        forall i | 0 <= i < |pivots| ensures HasRisingEdge(pivots[i].values) {
          TwoEdgesGiveRisingEdge(filtered[i].values);
        }
      }
      var rising := DetermineRisingSignals(pivots);
      this.signalsDf := signalsDf;
      this.wsize := wsize;
      this.filteredSignalsDf := filtered;
      this.pulsePivotsDf := pivots;
      this.pulseCount := count;
      this.pulsePointsWidth := records;
      this.risingSignals := rising.value;
    }

    /** `SignalProcessor(signals_df)` as a call that may raise: construction
        raises exactly when some channel has fewer than three edges after
        filtering, with the exception of `np.split(points, 0)`. */
    static method New(signalsDf: Frame, wsize: nat) returns (r: Result<SignalProcessor, ProcessError>)
      requires wsize % 2 == 1
      requires forall i :: 0 <= i < |signalsDf| ==> IsBinary(signalsDf[i].values)
      ensures r.Success? <==>
                forall i :: 0 <= i < |signalsDf| ==> |EdgeIndices(Diff(MedFilt(signalsDf[i].values, wsize)))| >= 3
      ensures r.Failure? ==> r.error == SplitIntoZeroSections
      ensures r.Success? ==> fresh(r.value) && r.value.Valid() && r.value.signalsDf == signalsDf && r.value.wsize == wsize
    {
      var pivots := FindPulsePivots(FilterNoise(signalsDf, wsize));
      assert forall i :: 0 <= i < |pivots| ==> pivots[i].values == Diff(MedFilt(signalsDf[i].values, wsize));
      var metrics := CalculatePulseMetrics(pivots);
      if metrics.Failure? {
        var i :| 0 <= i < |pivots| && |EdgeIndices(pivots[i].values)| < 3;
        assert |EdgeIndices(Diff(MedFilt(signalsDf[i].values, wsize)))| < 3;
        return Failure(metrics.error);
      }
      forall i | 0 <= i < |signalsDf| ensures |EdgeIndices(Diff(MedFilt(signalsDf[i].values, wsize)))| >= 3 {
        assert pivots[i].values == Diff(MedFilt(signalsDf[i].values, wsize));
      }
      var p := new SignalProcessor(signalsDf, wsize);
      r := Success(p);
    }

    /** The records kept for every channel are ordered and disjoint. */
    lemma ValidRecordsOrdered()
      requires Valid()
      ensures forall i :: 0 <= i < |pulsePointsWidth| ==> RecordsOrdered(pulsePointsWidth[i].1)
    {
      forall i | 0 <= i < |pulsePointsWidth| ensures RecordsOrdered(pulsePointsWidth[i].1) {
        assert PulsePointsWidth(pulsePivotsDf[i].values) == Success(pulsePointsWidth[i].1);
        PulseRecordsOrdered(pulsePivotsDf[i].values);
      }
    }

    /** The `pulse_points` property: per channel, one (start, end) pair per
        pulse, as many as `pulse_count` says, the end after the start and
        before the next pulse's start. */
    function PulsePoints(): (r: Dict<seq<(int, int)>>)
      requires Valid()
      ensures Keys(r) == Keys(pulseCount)
      ensures forall i :: 0 <= i < |r| ==>
                |r[i].1| == pulseCount[i].1 &&
                (forall k :: 0 <= k < |r[i].1| ==>
                   r[i].1[k] == (pulsePointsWidth[i].1[k].start, pulsePointsWidth[i].1[k].end) &&
                   0 <= r[i].1[k].0 < r[i].1[k].1) &&
                (forall k, l :: 0 <= k < l < |r[i].1| ==> r[i].1[k].1 < r[i].1[l].0)
    {
      ValidRecordsOrdered();
      PointsView(pulsePointsWidth)
    }

    /** The `pulse_width` property: per channel, one width per pulse, each
        the distance between that pulse's two points, so positive. */
    function PulseWidth(): (r: Dict<seq<int>>)
      requires Valid()
      ensures Keys(r) == Keys(pulseCount)
      ensures forall i :: 0 <= i < |r| ==>
                |r[i].1| == pulseCount[i].1 &&
                forall k :: 0 <= k < |r[i].1| ==>
                  r[i].1[k] == pulsePointsWidth[i].1[k].end - pulsePointsWidth[i].1[k].start && r[i].1[k] > 0
    {
      ValidRecordsOrdered();
      WidthView(pulsePointsWidth)
    }
  }
}
