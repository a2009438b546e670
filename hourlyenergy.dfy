/** The hourly bar chart (components/hourlyenergy.tsx): the metric's endpoint, the
    entries of `consumptionData` sorted by time (a stable sort, as Array.prototype.sort
    is) into x-axis labels and bar values, the error and guard rules, the chart width
    and the export's "No Data" case. Each entry carries its parsed instant (local
    seconds) next to its text key. */
module HourlyEnergy {
  import opened Text
  import opened Clock

  datatype Metric = KVAh | KWh | INR

  function Endpoint(m: Metric): string
  {
    match m
    case KWh => "hconsumption"
    case KVAh => "hkVAhconsumption"
    case INR => "hcostconsumption"
  }

  /** One endpoint per metric. */
  lemma {:induction false} EndpointInjective(a: Metric, b: Metric)
    ensures Endpoint(a) == Endpoint(b) ==> a == b
  {
  }

  /** One `[timestamp, value]` of `Object.entries(rawData)`: `time` is `new Date(timestamp)`;
      `value` is None when `parseFloat` gives NaN. */
  datatype Sample = Sample(timestamp: string, time: int, value: Option<int>)

  predicate SortedByTime(s: seq<Sample>)
  {
    forall i, j :: 0 <= i < j < |s| ==> s[i].time <= s[j].time
  }

  /** Insert into a sorted list after every entry that is not later. */
  function Insert(xs: seq<Sample>, x: Sample): (r: seq<Sample>)
    ensures |r| == |xs| + 1
  {
    if |xs| == 0 then [x]
    else if xs[|xs| - 1].time <= x.time then xs + [x]
    else Insert(xs[..|xs| - 1], x) + [xs[|xs| - 1]]
  }

  /** `.sort((a, b) => a.time - b.time)`, stable. */
  function SortByTime(s: seq<Sample>): (r: seq<Sample>)
    ensures |r| == |s|
  {
    if |s| == 0 then [] else Insert(SortByTime(s[..|s| - 1]), s[|s| - 1])
  }

  lemma {:induction false} InsertPermutes(xs: seq<Sample>, x: Sample)
    ensures multiset(Insert(xs, x)) == multiset(xs) + multiset{x}
  {
    if |xs| > 0 && xs[|xs| - 1].time > x.time {
      var front, last := xs[..|xs| - 1], xs[|xs| - 1];
      InsertPermutes(front, x);
      assert xs == front + [last];
    }
  }

  /** Appending an entry not earlier than any other keeps a list sorted. */
  lemma {:induction false} AppendSorted(r: seq<Sample>, last: Sample)
    requires SortedByTime(r)
    requires forall i :: 0 <= i < |r| ==> r[i].time <= last.time
    ensures SortedByTime(r + [last])
  {
    forall i, j | 0 <= i < j < |r| + 1 ensures (r + [last])[i].time <= (r + [last])[j].time {
      if j == |r| {
        assert (r + [last])[i] == r[i];
      } else {
        assert (r + [last])[i] == r[i] && (r + [last])[j] == r[j];
      }
    }
  }

  /** Insertion adds no entry later than those it was given. */
  lemma {:induction false} InsertBounded(xs: seq<Sample>, x: Sample, bound: int)
    requires forall i :: 0 <= i < |xs| ==> xs[i].time <= bound
    requires x.time <= bound
    ensures forall i :: 0 <= i < |Insert(xs, x)| ==> Insert(xs, x)[i].time <= bound
  {
    var r := Insert(xs, x);
    InsertPermutes(xs, x);
    forall i | 0 <= i < |r| ensures r[i].time <= bound {
      assert r[i] in multiset(r);
      if r[i] != x {
        assert r[i] in multiset(xs);
        var k :| 0 <= k < |xs| && xs[k] == r[i];
      }
    }
  }

  lemma {:induction false} InsertSorted(xs: seq<Sample>, x: Sample)
    requires SortedByTime(xs)
    ensures SortedByTime(Insert(xs, x))
  {
    if |xs| == 0 {
    } else if xs[|xs| - 1].time <= x.time {
      AppendSorted(xs, x);
    } else {
      var front, last := xs[..|xs| - 1], xs[|xs| - 1];
      assert SortedByTime(front) by {
        forall i, j | 0 <= i < j < |front| ensures front[i].time <= front[j].time {
          assert front[i] == xs[i] && front[j] == xs[j];
        }
      }
      assert forall i :: 0 <= i < |front| ==> front[i].time <= last.time by {
        forall i | 0 <= i < |front| ensures front[i].time <= last.time {
          assert front[i] == xs[i];
        }
      }
      InsertSorted(front, x);
      InsertBounded(front, x, last.time);
      AppendSorted(Insert(front, x), last);
    }
  }

  /** The sort orders by ascending time. */
  lemma {:induction false} SortByTimeSorted(s: seq<Sample>)
    ensures SortedByTime(SortByTime(s))
  {
    if |s| > 0 {
      SortByTimeSorted(s[..|s| - 1]);
      InsertSorted(SortByTime(s[..|s| - 1]), s[|s| - 1]);
    }
  }

  lemma {:induction false} MultisetSnoc(s: seq<Sample>)
    requires |s| > 0
    ensures multiset(s) == multiset(s[..|s| - 1]) + multiset{s[|s| - 1]}
  {
    assert s == s[..|s| - 1] + [s[|s| - 1]];
  }

  /** The sort is a permutation of its input. */
  lemma {:induction false} SortByTimePermutes(s: seq<Sample>)
    ensures multiset(SortByTime(s)) == multiset(s)
  {
    if |s| > 0 {
      var front, last := s[..|s| - 1], s[|s| - 1];
      var sf := SortByTime(front);
      assert SortByTime(s) == Insert(sf, last);
      SortByTimePermutes(front);
      InsertPermutes(sf, last);
      MultisetSnoc(s);
    }
  }

  /** The entries with time `t`, in order. */
  function AtTime(s: seq<Sample>, t: int): seq<Sample>
  {
    if |s| == 0 then [] else AtTime(s[..|s| - 1], t) + (if s[|s| - 1].time == t then [s[|s| - 1]] else [])
  }

  lemma {:induction false} AtTimeAppend(s: seq<Sample>, x: Sample, t: int)
    ensures AtTime(s + [x], t) == AtTime(s, t) + (if x.time == t then [x] else [])
  {
    assert (s + [x])[..|s|] == s;
  }

  lemma {:induction false} InsertStable(xs: seq<Sample>, x: Sample, t: int)
    ensures AtTime(Insert(xs, x), t) == AtTime(xs, t) + (if x.time == t then [x] else [])
  {
    if |xs| == 0 {
      AtTimeAppend([], x, t);
      assert [] + [x] == [x];
    } else if xs[|xs| - 1].time <= x.time {
      AtTimeAppend(xs, x, t);
    } else {
      var front, last := xs[..|xs| - 1], xs[|xs| - 1];
      InsertStable(front, x, t);
      AtTimeAppend(Insert(front, x), last, t);
      assert xs == front + [last];
      AtTimeAppend(front, last, t);
    }
  }

  /** Stability: entries with equal times keep their relative order. */
  lemma {:induction false} SortByTimeStable(s: seq<Sample>, t: int)
    ensures AtTime(SortByTime(s), t) == AtTime(s, t)
  {
    if |s| > 0 {
      SortByTimeStable(s[..|s| - 1], t);
      InsertStable(SortByTime(s[..|s| - 1]), s[|s| - 1], t);
    }
  }

  /** `parseFloat(value) || 0`. */
  function ValueOr0(x: Sample): int
  {
    if x.value.Some? then x.value.value else 0
  }

  /** `labels` and `data` from the sorted entries: `getHours().toString()` and the value. */
  function Series(raw: seq<Sample>): (r: (seq<string>, seq<int>))
    ensures |r.0| == |raw| && |r.1| == |raw|
    ensures forall i :: 0 <= i < |raw| ==>
      r.0[i] == NatToString(Breakdown(SortByTime(raw)[i].time).hour) && r.1[i] == ValueOr0(SortByTime(raw)[i])
  {
    var sorted := SortByTime(raw);
    (seq(|sorted|, i requires 0 <= i < |sorted| => NatToString(Breakdown(sorted[i].time).hour)),
     seq(|sorted|, i requires 0 <= i < |sorted| => ValueOr0(sorted[i])))
  }

  /** A label always reads back as the hour of its bar's entry, 0..23. */
  lemma {:induction false} LabelsAreHours(raw: seq<Sample>, i: nat)
    requires i < |raw|
    ensures var l := Series(raw).0[i]; AllDigits(l) && DigitsValue(l) < 24
  {
    NatToStringRoundTrip(Breakdown(SortByTime(raw)[i].time).hour);
  }

  const BarWidth: int := 50

  /** `Math.max(energyData.length * barWidth + 60, screenWidth)`. */
  function ChartWidth(n: nat, screenWidth: int): (w: int)
    ensures w >= n * BarWidth + 60 && w >= screenWidth
    ensures w == n * BarWidth + 60 || w == screenWidth
  {
    if n * BarWidth + 60 >= screenWidth then n * BarWidth + 60 else screenWidth
  }

  /** One more bar never narrows the chart. */
  lemma {:induction false} ChartWidthMonotone(n: nat, screenWidth: int)
    ensures ChartWidth(n, screenWidth) <= ChartWidth(n + 1, screenWidth)
  {
  }

  function MetricName(m: Metric): string
  {
    match m
    case KVAh => "kVAh"
    case KWh => "kWh"
    case INR => "INR"
  }

  datatype Export = NoData | Sheet(header: seq<string>, columns: seq<string>, values: seq<Option<int>>)

  /** `downloadExcel` up to `aoa_to_sheet`: "No Data" for an empty object, else one row per entry
      in `Object.entries` order, its value as `parseFloat` reads it. */
  function ExportSheet(raw: seq<Sample>, startDateTime: string, endDateTime: string, m: Metric): (e: Export)
    ensures e.NoData? <==> |raw| == 0
    ensures e.Sheet? ==> |e.values| == |raw| && forall i :: 0 <= i < |raw| ==> e.values[i] == raw[i].value
    ensures e.Sheet? ==> e.columns == ["Date", "Time", "Value (" + MetricName(m) + ")"]
  {
    if |raw| == 0 then NoData
    else Sheet(["Start: " + startDateTime, "End: " + endDateTime, ""], ["Date", "Time", "Value (" + MetricName(m) + ")"],
               seq(|raw|, i requires 0 <= i < |raw| => raw[i].value))
  }

  class HourlyEnergyView {
    var energyData: seq<int>
    var xAxisLabels: seq<string>
    var selectedMetric: Metric
    var rawData: seq<Sample>

    constructor ()
      ensures energyData == [] && xAxisLabels == [] && selectedMetric == KVAh && rawData == []
    {
      energyData := [];
      xAxisLabels := [];
      selectedMetric := KVAh;
      rawData := [];
    }

    predicate Consistent()
      reads this
    {
      |xAxisLabels| == |energyData|
    }

    /** The fetch effect. Without both datetimes nothing is asked (None); a failed request
        clears both series and keeps `rawData`; a reply without `consumptionData` reads as `{}`. */
    method FetchData(startDateTime: string, endDateTime: string, response: Option<Option<seq<Sample>>>)
      returns (endpoint: Option<string>)
      modifies this
      ensures endpoint.Some? <==> startDateTime != "" && endDateTime != ""
      ensures endpoint.Some? ==> endpoint.value == Endpoint(selectedMetric)
      ensures endpoint.None? ==> energyData == old(energyData) && xAxisLabels == old(xAxisLabels) && rawData == old(rawData)
      ensures endpoint.Some? && response.None? ==> energyData == [] && xAxisLabels == [] && rawData == old(rawData)
      ensures endpoint.Some? && response.Some? ==>
        rawData == (if response.value.Some? then response.value.value else [])
        && (xAxisLabels, energyData) == Series(rawData)
      ensures old(Consistent()) ==> Consistent()
      ensures selectedMetric == old(selectedMetric)
    {
      if startDateTime == "" || endDateTime == "" {
        return None;
      }
      endpoint := Some(Endpoint(selectedMetric));
      match response
      case None =>
        energyData := [];
        xAxisLabels := [];
      case Some(payload) =>
        rawData := if payload.Some? then payload.value else [];
        var series := Series(rawData);
        xAxisLabels := series.0;
        energyData := series.1;
    }

    method SelectMetric(m: Metric)
      modifies this
      ensures selectedMetric == m
      ensures energyData == old(energyData) && xAxisLabels == old(xAxisLabels) && rawData == old(rawData)
    {
      selectedMetric := m;
    }
  }
}
