/** The denoiser: a sliding-window median filter with an odd window and
    zero padding at both borders, as `scipy.signal.medfilt` applies it to one
    column of logic levels. It is specified here on binary (0/1) columns,
    where the median of a window of `2h + 1` samples is 1 exactly when more
    than `h` of them are 1. */
module MedianFilter {

  predicate IsBinary(s: seq<int>)
  {
    forall i :: 0 <= i < |s| ==> s[i] == 0 || s[i] == 1
  }

  /** The sample at position `j`, reading 0 outside the column. */
  function Sample(col: seq<int>, j: int): int
  {
    if 0 <= j < |col| then col[j] else 0
  }

  /** The `2h + 1` samples centred on position `i`. */
  function Window(col: seq<int>, i: int, h: nat): (w: seq<int>)
    ensures |w| == 2 * h + 1
    ensures forall k :: 0 <= k < |w| ==> w[k] == Sample(col, i - h + k)
  {
    seq(2 * h + 1, k requires 0 <= k < 2 * h + 1 => Sample(col, i - h + k))
  }

  lemma WindowOfBinary(col: seq<int>, i: int, h: nat)
    requires IsBinary(col)
    ensures IsBinary(Window(col, i, h))
  {
    var w := Window(col, i, h);
    forall k | 0 <= k < |w| ensures w[k] == 0 || w[k] == 1 {
      assert w[k] == Sample(col, i - h + k);
    }
  }

  /** Number of entries of `w` equal to `v`. */
  function Count(w: seq<int>, v: int): nat
  {
    if w == [] then 0 else (if w[0] == v then 1 else 0) + Count(w[1..], v)
  }

  /** Number of entries of `w` that are at most `m`. */
  function CountAtMost(w: seq<int>, m: int): nat
  {
    if w == [] then 0 else (if w[0] <= m then 1 else 0) + CountAtMost(w[1..], m)
  }

  /** Number of entries of `w` that are at least `m`. */
  function CountAtLeast(w: seq<int>, m: int): nat
  {
    if w == [] then 0 else (if w[0] >= m then 1 else 0) + CountAtLeast(w[1..], m)
  }

  /** `m` is a median of the odd-length window `w`: one of its samples, with
      more than half of the samples at most `m` and more than half at least `m`. */
  predicate IsMedian(w: seq<int>, m: int)
  {
    m in w && CountAtMost(w, m) > |w| / 2 && CountAtLeast(w, m) > |w| / 2
  }

  /** `medfilt(col, wsize)` on a binary column. */
  function MedFilt(col: seq<int>, wsize: nat): (r: seq<int>)
    requires wsize % 2 == 1 && IsBinary(col)
    ensures |r| == |col|
    ensures IsBinary(r)
  {
    var h := wsize / 2;
    seq(|col|, i requires 0 <= i < |col| => if Count(Window(col, i, h), 1) > h then 1 else 0)
  }

  /** On a binary window the three counts are determined by the number of ones. */
  lemma {:induction false} BinaryCounts(w: seq<int>)
    requires IsBinary(w)
    ensures Count(w, 0) + Count(w, 1) == |w|
    ensures CountAtMost(w, 0) == Count(w, 0) && CountAtMost(w, 1) == |w|
    ensures CountAtLeast(w, 1) == Count(w, 1) && CountAtLeast(w, 0) == |w|
  {
    if w != [] {
      assert IsBinary(w[1..]) by {
        forall i | 0 <= i < |w[1..]| ensures w[1..][i] == 0 || w[1..][i] == 1 {
          assert w[1..][i] == w[i + 1];
        }
      }
      BinaryCounts(w[1..]);
    }
  }

  lemma {:induction false} CountAppend(a: seq<int>, b: seq<int>, v: int)
    ensures Count(a + b, v) == Count(a, v) + Count(b, v)
  {
    if a != [] {
      assert (a + b)[1..] == a[1..] + b;
      CountAppend(a[1..], b, v);
    } else {
      assert a + b == b;
    }
  }

  /** A run of equal entries is counted in full; a run without `v` not at all. */
  lemma {:induction false} CountUniform(w: seq<int>, v: int, u: int)
    requires forall i :: 0 <= i < |w| ==> w[i] == u
    ensures Count(w, v) == if u == v then |w| else 0
  {
    if w != [] {
      CountUniform(w[1..], v, u);
    }
  }

  /** The filtered sample is the median of its window, which on a binary
      column is what `medfilt` returns. */
  lemma MedFiltIsMedian(col: seq<int>, wsize: nat, i: nat)
    requires wsize % 2 == 1 && IsBinary(col) && i < |col|
    ensures IsMedian(Window(col, i, wsize / 2), MedFilt(col, wsize)[i])
  {
    var w := Window(col, i, wsize / 2);
    WindowOfBinary(col, i, wsize / 2);
    BinaryCounts(w);
    if MedFilt(col, wsize)[i] == 1 {
      if 1 !in w {
        CountUniform(w, 1, 0);
        assert false;
      }
    } else {
      if 0 !in w {
        CountUniform(w, 0, 1);
        assert false;
      }
    }
  }

  /** The median of a binary window is unique, so the filter's output is
      fully determined by the median definition. */
  lemma MedianIsUnique(w: seq<int>, m: int)
    requires IsBinary(w) && |w| % 2 == 1 && IsMedian(w, m)
    ensures m == if Count(w, 1) > |w| / 2 then 1 else 0
  {
    BinaryCounts(w);
    var k :| 0 <= k < |w| && w[k] == m;
  }

  /** A column that is all 0 passes the filter unchanged. */
  lemma ConstantLowUnchanged(col: seq<int>, wsize: nat)
    requires wsize % 2 == 1
    requires forall i :: 0 <= i < |col| ==> col[i] == 0
    ensures MedFilt(col, wsize) == col
  {
    forall i | 0 <= i < |col| ensures MedFilt(col, wsize)[i] == 0 {
      var w := Window(col, i, wsize / 2);
      forall k | 0 <= k < |w| ensures w[k] == 0 {
        assert w[k] == Sample(col, i - wsize / 2 + k);
      }
      CountUniform(w, 1, 0);
    }
  }

  /** Every window around a sample of an all-1 column longer than `h` holds
      at least `h + 1` real samples, all of them 1. */
  lemma HighWindowOutvotesPadding(col: seq<int>, h: nat, i: nat)
    requires |col| > h && i < |col|
    requires forall j :: 0 <= j < |col| ==> col[j] == 1
    ensures Count(Window(col, i, h), 1) > h
  {
    var w := Window(col, i, h);
    var lo := if i >= h then 0 else h - i;
    var run := w[lo..lo + h + 1];
    forall k | 0 <= k < h + 1 ensures run[k] == 1 {
      assert run[k] == w[lo + k] == Sample(col, i - h + lo + k);
    }
    assert w == w[..lo] + run + w[lo + h + 1..];
    CountAppend(w[..lo] + run, w[lo + h + 1..], 1);
    CountAppend(w[..lo], run, 1);
    CountUniform(run, 1, 1);
  }

  /** A column that is all 1 and longer than half the window passes the
      filter unchanged. */
  lemma ConstantHighUnchanged(col: seq<int>, wsize: nat)
    requires wsize % 2 == 1 && |col| > wsize / 2
    requires forall i :: 0 <= i < |col| ==> col[i] == 1
    ensures MedFilt(col, wsize) == col
  {
    forall i | 0 <= i < |col| ensures MedFilt(col, wsize)[i] == 1 {
      HighWindowOutvotesPadding(col, wsize / 2, i);
    }
  }

  /** An all-1 column no longer than half the window comes out all 0: every
      window covers the whole column, and the zero padding outvotes it. */
  lemma ShortHighColumnDropped(col: seq<int>, wsize: nat)
    requires wsize % 2 == 1 && 0 < |col| <= wsize / 2
    requires forall i :: 0 <= i < |col| ==> col[i] == 1
    ensures forall i :: 0 <= i < |col| ==> MedFilt(col, wsize)[i] == 0
  {
    forall i | 0 <= i < |col| ensures MedFilt(col, wsize)[i] == 0 {
      ShortWindowOutvoted(col, wsize / 2, i);
    }
  }

  /** Around any sample of an all-1 column of at most `h` samples, the
      window holds the whole column and padding elsewhere. */
  lemma ShortWindowOutvoted(col: seq<int>, h: nat, i: nat)
    requires 0 < |col| <= h && i < |col|
    requires forall j :: 0 <= j < |col| ==> col[j] == 1
    ensures Count(Window(col, i, h), 1) == |col|
  {
    var w := Window(col, i, h);
    var lo := h - i;
    var before, run, after := w[..lo], w[lo..lo + |col|], w[lo + |col|..];
    forall k | 0 <= k < |before| ensures before[k] == 0 {
      assert before[k] == Sample(col, i - h + k);
    }
    forall k | 0 <= k < |run| ensures run[k] == 1 {
      assert run[k] == Sample(col, k);
    }
    forall k | 0 <= k < |after| ensures after[k] == 0 {
      assert after[k] == Sample(col, |col| + k);
    }
    assert w == before + run + after;
    CountAppend(before + run, after, 1);
    CountAppend(before, run, 1);
    CountUniform(before, 1, 0);
    CountUniform(run, 1, 1);
    CountUniform(after, 1, 0);
  }
}
