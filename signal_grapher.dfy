/** The non-drawing part of `SignalGrapher`: which channels get their pulse
    widths annotated, chosen by the plot-width setting from the rising
    flags, and the list of vertical marker lines the caller hands in. */
module Grapher {
  import opened SignalProcessing

  /** The keys of `d` whose value is `v`, in the order of `d`. */
  function KeysWith(d: Dict<bool>, v: bool): (r: seq<string>)
    ensures |r| <= |d|
    ensures forall x :: x in r <==> exists i :: 0 <= i < |d| && d[i] == (x, v)
  {
    if d == [] then []
    else
      var rest := KeysWith(d[1..], v);
      assert forall x :: (exists i :: 0 <= i < |d| - 1 && d[1..][i] == (x, v)) <==>
                         (exists i :: 1 <= i < |d| && d[i] == (x, v)) by {
        forall x | exists i :: 1 <= i < |d| && d[i] == (x, v)
          ensures exists i :: 0 <= i < |d| - 1 && d[1..][i] == (x, v)
        {
          var i :| 1 <= i < |d| && d[i] == (x, v);
          assert d[1..][i - 1] == d[i];
        }
      }
      if d[0].1 == v then [d[0].0] + rest else rest
  }

  /** `_get_signals_to_plot`: every channel for "all", the rising ones for
      "rising", the falling ones for "falling", and none for any other
      setting. */
  function SignalsToPlot(plotWidth: string, risingSignals: Dict<bool>): (r: seq<string>)
    ensures plotWidth == "all" ==> r == Keys(risingSignals)
    ensures plotWidth == "rising" ==>
              forall x :: x in r <==> exists i :: 0 <= i < |risingSignals| && risingSignals[i] == (x, true)
    ensures plotWidth == "falling" ==>
              forall x :: x in r <==> exists i :: 0 <= i < |risingSignals| && risingSignals[i] == (x, false)
    ensures plotWidth != "all" && plotWidth != "rising" && plotWidth != "falling" ==> r == []
  {
    if plotWidth == "all" then Keys(risingSignals)
    else if plotWidth == "rising" then KeysWith(risingSignals, true)
    else if plotWidth == "falling" then KeysWith(risingSignals, false)
    else []
  }

  /** The keys with value `v` of two dicts laid end to end are those of the
      first followed by those of the second: the selection keeps dict order
      and lists each entry at most once. */
  lemma {:induction false} KeysWithAppend(a: Dict<bool>, b: Dict<bool>, v: bool)
    ensures KeysWith(a + b, v) == KeysWith(a, v) + KeysWith(b, v)
  {
    if a == [] {
      assert a + b == b;
    } else {
      assert (a + b)[1..] == a[1..] + b;
      KeysWithAppend(a[1..], b, v);
    }
  }

  /** Every plot-width setting selects channels entry by entry and in dict
      order: the selection over two dicts laid end to end is the selection
      over the first followed by that over the second, and a single entry
      is selected under "all", under "rising" exactly when its flag is set,
      under "falling" exactly when it is clear, and never otherwise. */
  lemma SignalsToPlotInOrder(plotWidth: string, a: Dict<bool>, b: Dict<bool>, e: (string, bool))
    ensures SignalsToPlot(plotWidth, a + b) == SignalsToPlot(plotWidth, a) + SignalsToPlot(plotWidth, b)
    ensures SignalsToPlot(plotWidth, [e]) ==
              if plotWidth == "all" || (plotWidth == "rising" && e.1) || (plotWidth == "falling" && !e.1) then [e.0]
              else []
  {
    if plotWidth == "all" {
      assert Keys(a + b) == Keys(a) + Keys(b);
    } else if plotWidth == "rising" {
      KeysWithAppend(a, b, true);
    } else if plotWidth == "falling" {
      KeysWithAppend(a, b, false);
    }
    assert [e][1..] == [];
  }

  /** Every channel is listed by exactly one of "rising" and "falling", as
      often as it is listed by "all". */
  lemma {:induction false} RisingAndFallingPartitionAll(d: Dict<bool>)
    ensures multiset(SignalsToPlot("rising", d)) + multiset(SignalsToPlot("falling", d)) ==
            multiset(SignalsToPlot("all", d))
  {
    if d != [] {
      RisingAndFallingPartitionAll(d[1..]);
      var k := d[0].0;
      assert Keys(d) == [k] + Keys(d[1..]);
      if d[0].1 {
        assert KeysWith(d, true) == [k] + KeysWith(d[1..], true);
        assert KeysWith(d, false) == KeysWith(d[1..], false);
      } else {
        assert KeysWith(d, true) == KeysWith(d[1..], true);
        assert KeysWith(d, false) == [k] + KeysWith(d[1..], false);
      }
    }
  }

  /** The grapher of one capture. The inputs and the channel selection are
      fixed at construction; only the marker lines change afterwards. */
  class SignalGrapher {
    const filteredSignalsDf: Frame
    const pulseCounts: Dict<nat>
    const pulsePointsWidth: Dict<seq<PulseRecord>>
    const risingSignals: Dict<bool>
    const plotWidth: string
    const signalsToPlotWidths: seq<string>
    var vlines: seq<int>

    /** `SignalGrapher(...)`, with the plot-width setting passed in. */
    constructor (filteredSignalsDf: Frame, pulseCounts: Dict<nat>, pulsePointsWidth: Dict<seq<PulseRecord>>,
                 risingSignals: Dict<bool>, plotWidth: string)
      ensures this.filteredSignalsDf == filteredSignalsDf && this.pulseCounts == pulseCounts
      ensures this.pulsePointsWidth == pulsePointsWidth && this.risingSignals == risingSignals
      ensures this.plotWidth == plotWidth
      ensures signalsToPlotWidths == SignalsToPlot(plotWidth, risingSignals)
      ensures vlines == []
    {
      this.filteredSignalsDf := filteredSignalsDf;
      this.pulseCounts := pulseCounts;
      this.pulsePointsWidth := pulsePointsWidth;
      this.risingSignals := risingSignals;
      this.plotWidth := plotWidth;
      this.signalsToPlotWidths := SignalsToPlot(plotWidth, risingSignals);
      this.vlines := [];
    }

    /** `add_vlines`: replace the marker lines; nothing else changes. */
    method AddVlines(vlines: seq<int>)
      modifies this`vlines
      ensures this.vlines == vlines
    {
      this.vlines := vlines;
    }
  }
}
