/** The handful of numpy operations the pulse extractor is built from, on
    sequences of integers: `np.diff`, `np.sum`, the strided slices `s[::2]`
    and `s[1::2]`, and `np.nonzero` / `np.where` as an index filter. */
module ArrayOps {

  /** `np.diff`: the first difference, one shorter than its input (empty for
      an input of length 0 or 1). */
  function Diff(s: seq<int>): (r: seq<int>)
    ensures |r| == if |s| == 0 then 0 else |s| - 1
    ensures forall i :: 0 <= i < |r| ==> r[i] == s[i + 1] - s[i]
  {
    if |s| < 2 then [] else [s[1] - s[0]] + Diff(s[1..])
  }

  /** `np.sum`; the sum of an empty sequence is 0. */
  function Sum(s: seq<int>): int
  {
    if s == [] then 0 else Sum(s[..|s| - 1]) + s[|s| - 1]
  }

  /** `s[::2]`: the entries at even positions. */
  function EveryOther(s: seq<int>): (r: seq<int>)
    ensures |r| == (|s| + 1) / 2
    ensures forall k :: 0 <= k < |r| ==> r[k] == s[2 * k]
  {
    if |s| <= 1 then s else [s[0]] + EveryOther(s[2..])
  }

  /** `s[1::2]`: the entries at odd positions. */
  function OddPositions(s: seq<int>): (r: seq<int>)
    ensures |r| == |s| / 2
    ensures forall k :: 0 <= k < |r| ==> r[k] == s[2 * k + 1]
  {
    if s == [] then [] else EveryOther(s[1..])
  }

  /** The positions of `s` whose entry satisfies `p`, in increasing order:
      `np.nonzero(s)[0]` for `p(x) = x != 0`, `np.where(s == v)[0]` for
      `p(x) = x == v`. */
  function Where(s: seq<int>, p: int -> bool): (r: seq<int>)
    ensures |r| <= |s|
    ensures forall k :: 0 <= k < |r| ==> 0 <= r[k] < |s| && p(s[r[k]])
    ensures forall k, l :: 0 <= k < l < |r| ==> r[k] < r[l]
  {
    WhereFrom(s, p, 0)
  }

  /** The positions from `i` on whose entry satisfies `p`. */
  function WhereFrom(s: seq<int>, p: int -> bool, i: nat): (r: seq<int>)
    requires i <= |s|
    ensures |r| <= |s| - i
    ensures forall k :: 0 <= k < |r| ==> i <= r[k] < |s| && p(s[r[k]])
    ensures forall k, l :: 0 <= k < l < |r| ==> r[k] < r[l]
    decreases |s| - i
  {
    if i == |s| then []
    else (if p(s[i]) then [i] else []) + WhereFrom(s, p, i + 1)
  }

  /** `Where` misses no position: every position whose entry satisfies `p`
      is found. */
  lemma WhereComplete(s: seq<int>, p: int -> bool, j: int)
    requires 0 <= j < |s| && p(s[j])
    ensures j in Where(s, p)
  {
    WhereFromComplete(s, p, 0, j);
  }

  lemma {:induction false} WhereFromComplete(s: seq<int>, p: int -> bool, i: nat, j: int)
    requires i <= j < |s| && p(s[j])
    ensures j in WhereFrom(s, p, i)
    decreases |s| - i
  {
    if i < j {
      WhereFromComplete(s, p, i + 1, j);
    }
  }

  /** No position strictly between two consecutive positions found by
      `Where` satisfies `p`, and none before the first one. */
  lemma WhereHasNoGaps(s: seq<int>, p: int -> bool, k: int, j: int)
    requires -1 <= k < |Where(s, p)| - 1
    requires 0 <= j < |s|
    requires k >= 0 ==> Where(s, p)[k] < j
    requires j < Where(s, p)[k + 1]
    ensures !p(s[j])
  {
    var r := Where(s, p);
    if p(s[j]) {
      WhereComplete(s, p, j);
      assert false;
    }
  }
}
