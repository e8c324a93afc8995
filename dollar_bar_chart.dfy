/** The dollar bar chart: what it derives from its last 30 points (bounds,
    average and last change, which bars to draw, bar heights, axis labels)
    and the state it keeps while fetching them. */
module DollarBarChart {
  import opened Common
  import opened Api

  /** Up to this many points every point gets a bar. */
  const DenseLimit := 15
  /** A longer series keeps one bar in this many. */
  const BarStride := 3
  /** How many labels the y axis shows. */
  const AxisLabelCount := 5

  /** `maxValue`: `Math.max` over the values, or 0 for no data. */
  function MaxValue(chartData: seq<SeriesPoint>): (m: real)
    ensures chartData == [] ==> m == 0.0
    ensures forall i :: 0 <= i < |chartData| ==> chartData[i].valor <= m
    ensures chartData != [] ==> exists i :: 0 <= i < |chartData| && chartData[i].valor == m
  {
    if chartData == [] then 0.0
    else
      var vs := Valores(chartData);
      var m := MaxOf(vs);
      assert exists i :: 0 <= i < |vs| && vs[i] == m;
      m
  }

  /** `minValue`: `Math.min` over the values, or 0 for no data. */
  function MinValue(chartData: seq<SeriesPoint>): (m: real)
    ensures chartData == [] ==> m == 0.0
    ensures forall i :: 0 <= i < |chartData| ==> m <= chartData[i].valor
    ensures chartData != [] ==> exists i :: 0 <= i < |chartData| && chartData[i].valor == m
  {
    if chartData == [] then 0.0
    else
      var vs := Valores(chartData);
      var m := MinOf(vs);
      assert exists i :: 0 <= i < |vs| && vs[i] == m;
      m
  }

  /** The summary shown above the chart. */
  datatype Stats = Stats(avg: real, change: real, changePercent: Num)

  /** `calculateStats`: with fewer than two points everything is 0; otherwise
      the mean of the values, the change from the second-to-last to the last
      value, and that change as a percentage of the second-to-last value. */
  function CalculateStats(chartData: seq<SeriesPoint>): (s: Stats)
    ensures |chartData| < 2 ==> s == Stats(0.0, 0.0, Finite(0.0))
    ensures |chartData| >= 2 ==> s.avg == Mean(Valores(chartData))
    ensures |chartData| >= 2 ==> MinValue(chartData) <= s.avg <= MaxValue(chartData)
    ensures |chartData| >= 2 ==>
              var latest, previous := chartData[|chartData| - 1].valor, chartData[|chartData| - 2].valor;
              latest == previous + s.change && s.changePercent == Percent(s.change, previous)
  {
    if |chartData| < 2 then Stats(0.0, 0.0, Finite(0.0))
    else
      var vs := Valores(chartData);
      var latest := chartData[|chartData| - 1].valor;
      var previous := chartData[|chartData| - 2].valor;
      MeanBounds(vs);
      Stats(Mean(vs), latest - previous, Percent(latest - previous, previous))
  }

  /** On a flat series the average is that value and there is no change. */
  lemma StatsOfFlatSeries(chartData: seq<SeriesPoint>, c: real)
    requires |chartData| >= 2
    requires forall i :: 0 <= i < |chartData| ==> chartData[i].valor == c
    ensures CalculateStats(chartData).avg == c
    ensures CalculateStats(chartData).change == 0.0
    ensures c != 0.0 ==> CalculateStats(chartData).changePercent == Finite(0.0)
  {
    MeanOfConstant(Valores(chartData), c);
  }

  /** Whether index `i` of `n` points gets a bar in a long series:
      every third index, and always the last one. */
  predicate KeepsBar(n: nat, i: nat)
  {
    i % BarStride == 0 || i == n - 1
  }

  /** The indices in [from, n) that keep a bar, in increasing order. */
  function KeptIndices(n: nat, from: nat): (idx: seq<nat>)
    requires from <= n
    ensures forall j :: 0 <= j < |idx| ==> from <= idx[j] < n && KeepsBar(n, idx[j])
    ensures forall k :: from <= k < n && KeepsBar(n, k) ==> k in idx
    ensures forall j, j' :: 0 <= j < j' < |idx| ==> idx[j] < idx[j']
    decreases n - from
  {
    if from == n then []
    else (if KeepsBar(n, from) then [from] else []) + KeptIndices(n, from + 1)
  }

  /** How many indices keep a bar: the multiples of 3 in [from, n), plus the
      last index when it is not one of them. */
  lemma {:induction false} KeptIndicesCount(n: nat, from: nat)
    requires from <= n
    ensures |KeptIndices(n, from)| ==
              (n + 2) / 3 - (from + 2) / 3 + (if from < n && (n - 1) % 3 != 0 then 1 else 0)
    decreases n - from
  {
    if from < n {
      KeptIndicesCount(n, from + 1);
      assert |KeptIndices(n, from)| == (if KeepsBar(n, from) then 1 else 0) + |KeptIndices(n, from + 1)|;
      var q, r := from / 3, from % 3;
      assert from == 3 * q + r && 0 <= r < 3;
      assert (from + 2) / 3 == (if r == 0 then q else q + 1);
      assert (from + 3) / 3 == q + 1;
    }
  }

  /** `getFilteredData`: a series of at most 15 points is drawn whole; a longer
      one keeps, in order, the points at every third index and the last point. */
  function GetFilteredData(chartData: seq<SeriesPoint>): (r: seq<SeriesPoint>)
    ensures |chartData| <= DenseLimit ==> r == chartData
    ensures |chartData| > DenseLimit ==>
              var idx := KeptIndices(|chartData|, 0);
              |r| == |idx| && forall j :: 0 <= j < |r| ==> r[j] == chartData[idx[j]]
  {
    if |chartData| <= DenseLimit then chartData
    else
      var idx := KeptIndices(|chartData|, 0);
      seq(|idx|, j requires 0 <= j < |idx| => chartData[idx[j]])
  }

  /** Every bar drawn is a point of the series. */
  lemma FilteredDataFromSeries(chartData: seq<SeriesPoint>)
    ensures forall j :: 0 <= j < |GetFilteredData(chartData)| ==> GetFilteredData(chartData)[j] in chartData
  {
    var r := GetFilteredData(chartData);
    if |chartData| > DenseLimit {
      var idx := KeptIndices(|chartData|, 0);
      forall j | 0 <= j < |r| ensures r[j] in chartData {
        assert r[j] == chartData[idx[j]];
      }
    }
  }

  /** The first and the last index always keep a bar. */
  lemma KeptIndicesEnds(n: nat)
    requires n > 0
    ensures |KeptIndices(n, 0)| > 0
    ensures KeptIndices(n, 0)[0] == 0
    ensures KeptIndices(n, 0)[|KeptIndices(n, 0)| - 1] == n - 1
  {
    var idx := KeptIndices(n, 0);
    assert KeepsBar(n, 0) && KeepsBar(n, n - 1);
    assert 0 in idx && n - 1 in idx;
    var first :| 0 <= first < |idx| && idx[first] == 0;
    var last :| 0 <= last < |idx| && idx[last] == n - 1;
    assert first == 0;
    assert idx[|idx| - 1] < n && idx[last] <= idx[|idx| - 1];
  }

  /** Bar `j` of a long series is the point at the `j`-th kept index. */
  lemma FilteredDataAt(chartData: seq<SeriesPoint>, j: nat)
    requires |chartData| > DenseLimit
    requires j < |KeptIndices(|chartData|, 0)|
    ensures |GetFilteredData(chartData)| == |KeptIndices(|chartData|, 0)|
    ensures GetFilteredData(chartData)[j] == chartData[KeptIndices(|chartData|, 0)[j]]
  {
  }

  /** The first and the last point always get a bar. */
  lemma FilteredDataKeepsEnds(chartData: seq<SeriesPoint>)
    requires chartData != []
    ensures GetFilteredData(chartData) != []
    ensures GetFilteredData(chartData)[0] == chartData[0]
    ensures GetFilteredData(chartData)[|GetFilteredData(chartData)| - 1] == chartData[|chartData| - 1]
  {
    var n := |chartData|;
    var r := GetFilteredData(chartData);
    if n > DenseLimit {
      var idx := KeptIndices(n, 0);
      KeptIndicesEnds(n);
      FilteredDataAt(chartData, 0);
      FilteredDataAt(chartData, |idx| - 1);
      assert r[|r| - 1] == chartData[idx[|idx| - 1]];
      assert r[|r| - 1] == chartData[n - 1];
    } else {
      assert r == chartData;
    }
  }

  /** A long series keeps the multiples of 3 plus the last index: 30 points give 11 bars. */
  lemma FilteredDataCount(chartData: seq<SeriesPoint>)
    requires |chartData| > DenseLimit
    ensures |GetFilteredData(chartData)| ==
              (|chartData| + 2) / 3 + (if (|chartData| - 1) % 3 != 0 then 1 else 0)
  {
    KeptIndicesCount(|chartData|, 0);
  }

  /** `normalizedHeight`, in percent of the chart. The code divides by
      `max - min` without a guard, so a flat series gives no finite height. */
  function NormalizedHeight(valor: real, minValue: real, maxValue: real): (h: Num)
    ensures h.Finite? <==> minValue != maxValue
    ensures minValue < maxValue && valor == minValue ==> h == Finite(0.0)
    ensures minValue < maxValue && valor == maxValue ==> h == Finite(100.0)
  {
    var span := maxValue - minValue;
    assert span != 0.0 ==> span / span == 1.0;
    Percent(valor - minValue, span)
  }

  /** Between the bounds, heights lie in [0, 100] and grow with the value. */
  lemma HeightBounds(v: real, w: real, minValue: real, maxValue: real)
    requires minValue < maxValue
    requires minValue <= v <= w <= maxValue
    ensures 0.0 <= NormalizedHeight(v, minValue, maxValue).value
    ensures NormalizedHeight(v, minValue, maxValue).value <= NormalizedHeight(w, minValue, maxValue).value
    ensures NormalizedHeight(w, minValue, maxValue).value <= 100.0
  {
    var d := maxValue - minValue;
    assert (v - minValue) / d <= (w - minValue) / d;
    assert (w - minValue) / d <= d / d;
  }

  /** The heights of the bars drawn, in order. */
  function BarHeights(chartData: seq<SeriesPoint>): (hs: seq<Num>)
    ensures |hs| == |GetFilteredData(chartData)|
    ensures forall j :: 0 <= j < |hs| ==>
              hs[j] == NormalizedHeight(GetFilteredData(chartData)[j].valor, MinValue(chartData), MaxValue(chartData))
  {
    var bars := GetFilteredData(chartData);
    var lo, hi := MinValue(chartData), MaxValue(chartData);
    seq(|bars|, j requires 0 <= j < |bars| => NormalizedHeight(bars[j].valor, lo, hi))
  }

  /** When the series is not flat every bar is between 0% and 100% tall and
      the last one is as tall as the latest value; when it is flat no bar
      gets a finite height. */
  lemma BarHeightsInRange(chartData: seq<SeriesPoint>)
    ensures MinValue(chartData) < MaxValue(chartData) ==>
              forall j :: 0 <= j < |BarHeights(chartData)| ==>
                BarHeights(chartData)[j].Finite? &&
                0.0 <= BarHeights(chartData)[j].value <= 100.0
    ensures chartData != [] ==>
              BarHeights(chartData)[|BarHeights(chartData)| - 1] ==
                NormalizedHeight(chartData[|chartData| - 1].valor, MinValue(chartData), MaxValue(chartData))
    ensures MinValue(chartData) == MaxValue(chartData) ==>
              forall j :: 0 <= j < |BarHeights(chartData)| ==> BarHeights(chartData)[j] == NonFinite
  {
    var bars := GetFilteredData(chartData);
    var hs := BarHeights(chartData);
    var lo, hi := MinValue(chartData), MaxValue(chartData);
    FilteredDataFromSeries(chartData);
    if chartData != [] {
      FilteredDataKeepsEnds(chartData);
    }
    if lo < hi {
      forall j | 0 <= j < |hs| ensures hs[j].Finite? && 0.0 <= hs[j].value <= 100.0 {
        var i :| 0 <= i < |chartData| && chartData[i] == bars[j];
        HeightBounds(bars[j].valor, bars[j].valor, lo, hi);
      }
    }
  }

  /** The y-axis labels, top to bottom: `max - (max - min) * i / 4` for i = 0..4. */
  function YAxisLabels(minValue: real, maxValue: real): (labels: seq<real>)
    ensures |labels| == AxisLabelCount
    ensures labels[0] == maxValue
    ensures labels[AxisLabelCount - 1] == minValue
    ensures forall i :: 0 <= i < AxisLabelCount - 1 ==> labels[i] - labels[i + 1] == (maxValue - minValue) / 4.0
  {
    seq(AxisLabelCount, i requires 0 <= i < AxisLabelCount => maxValue - (maxValue - minValue) * (i as real) / 4.0)
  }

  /** With min <= max the labels never increase and all lie in [min, max]. */
  lemma {:induction false} YAxisLabelsWithinBounds(minValue: real, maxValue: real)
    requires minValue <= maxValue
    ensures forall i :: 0 <= i < AxisLabelCount - 1 ==> YAxisLabels(minValue, maxValue)[i + 1] <= YAxisLabels(minValue, maxValue)[i]
    ensures forall i :: 0 <= i < AxisLabelCount ==> minValue <= YAxisLabels(minValue, maxValue)[i] <= maxValue
  {
    var labels := YAxisLabels(minValue, maxValue);
    var step := (maxValue - minValue) / 4.0;
    assert step >= 0.0;
    assert labels[1] == maxValue - step && labels[2] == maxValue - 2.0 * step && labels[3] == maxValue - 3.0 * step;
  }

  /** The chart receives `getDollarLast30Days()` and reverses it, which is
      exactly what `getDollarSeries` returns; on a newest-first provider series
      it therefore holds the most recent points oldest first. */
  lemma FetchedChartDataChronological(serie: seq<SeriesPoint>)
    ensures NewestFirst(serie) ==> OldestFirst(Reversed(GetDollarLast30Days(serie)))
  {
    if NewestFirst(serie) {
      IndicatorSeriesChronological(serie);
    }
  }

  /** The chart's state: its data, whether a fetch is under way, and whether the last one failed. */
  class Chart {
    var chartData: seq<SeriesPoint>
    var loading: bool
    var error: bool

    constructor ()
      ensures chartData == [] && loading && !error
    {
      chartData := [];
      loading := true;
      error := false;
    }

    /** `fetchChartData`, given the awaited `getDollarLast30Days()` (None when
        it rejects): on success the data is stored reversed, oldest first; on
        failure the previous data stays and the error is set. */
    method FetchChartData(response: Option<seq<SeriesPoint>>)
      modifies this
      ensures !loading
      ensures error <==> response.None?
      ensures response.Some? ==> chartData == Reversed(response.value)
      ensures response.None? ==> chartData == old(chartData)
    {
      loading := true;
      error := false;
      match response {
        case Some(data) =>
          chartData := Reversed(data);
          loading := false;
        case None =>
          error := true;
          loading := false;
      }
    }
  }
}
