/** The peak-demand line chart (components/peakdemand.tsx): the y-axis ticks computed
    from the data, the 48 half-hour x labels, the tooltip's hour text and its
    placement inside the 1000-wide chart. Data values are integers. */
module PeakDemand {
  import opened Text

  const ChartWidth: int := 1000
  const TooltipWidth: int := 90
  const TooltipHeight: int := 38
  const ChartSegments: int := 4

  // ---------------------------------------------------------------------------
  // The y axis.

  /** `Math.max(...dataArr)`. */
  function MaxOf(s: seq<int>): (m: int)
    requires |s| > 0
    ensures m in s && forall x :: x in s ==> x <= m
  {
    if |s| == 1 then s[0]
    else
      var r := MaxOf(s[1..]);
      assert forall x :: x in s ==> x == s[0] || x in s[1..];
      if s[0] >= r then s[0] else r
  }

  // Integer facts the rounding needs.

  lemma {:induction false} DivBounds(n: int, d: int)
    requires d > 0
    ensures d * (n / d) <= n < d * (n / d) + d
  {
  }

  lemma {:induction false} MulNonneg(x: int, y: int)
    requires x >= 0 && y >= 0
    ensures x * y >= 0
    decreases y
  {
    if y > 0 {
      MulNonneg(x, y - 1);
      assert x * y == x * (y - 1) + x;
    }
  }

  lemma {:induction false} MulStep(d: int, a: int, b: int)
    requires d > 0 && a < b
    ensures d * a + d <= d * b
  {
    MulNonneg(d, b - a - 1);
    assert d * b == d * a + d * (b - a - 1) + d;
  }

  lemma {:induction false} DivUnique(n: int, d: int, q: int)
    requires d > 0 && d * q <= n < d * q + d
    ensures n / d == q
  {
    DivBounds(n, d);
    var q' := n / d;
    if q' < q {
      MulStep(d, q', q);
    } else if q' > q {
      MulStep(d, q, q');
    }
  }

  /** `Math.ceil(x / k) * k`. */
  function CeilTo(x: int, k: int): int
    requires k > 0
  {
    ((x + k - 1) / k) * k
  }

  /** The least multiple of `k` not below `x`. */
  lemma {:induction false} CeilToFacts(x: int, k: int)
    requires k > 0
    ensures CeilTo(x, k) % k == 0 && x <= CeilTo(x, k) < x + k
  {
    var q := (x + k - 1) / k;
    DivBounds(x + k - 1, k);
    assert CeilTo(x, k) == k * q;
    DivUnique(k * q, k, q);
  }

  /** The rounded-up top of the axis: to 100 above 1000, to 50 above 500, else to 10. */
  function AxisMax(max: int): (a: int)
    ensures a >= max
    ensures max > 1000 ==> a % 100 == 0 && a < max + 100
    ensures 500 < max <= 1000 ==> a % 50 == 0 && a < max + 50
    ensures max <= 500 ==> a % 10 == 0 && a < max + 10
  {
    CeilToFacts(max, 100);
    CeilToFacts(max, 50);
    CeilToFacts(max, 10);
    if max > 1000 then CeilTo(max, 100) else if max > 500 then CeilTo(max, 50) else CeilTo(max, 10)
  }

  /** `Math.round(p / q)`: the nearest integer, halves rounded up. */
  function RoundDiv(p: int, q: int): (r: int)
    requires q > 0
    ensures 2 * q * r <= 2 * p + q < 2 * q * r + 2 * q
  {
    DivBounds(2 * p + q, 2 * q);
    (2 * p + q) / (2 * q)
  }

  lemma {:induction false} RoundDivMonotone(p1: int, p2: int, q: int)
    requires q > 0 && p1 <= p2
    ensures RoundDiv(p1, q) <= RoundDiv(p2, q)
  {
    var r1, r2 := RoundDiv(p1, q), RoundDiv(p2, q);
    if r1 > r2 {
      MulStep(2 * q, r2, r1);
    }
  }

  lemma {:induction false} MulMonotone(a: int, b: int, c: int)
    requires a >= 0 && b <= c
    ensures a * b <= a * c
  {
    MulNonneg(a, c - b);
    assert a * c == a * b + a * (c - b);
  }

  /** Tick `i` of `steps`: `Math.round(axisMax - (axisMax / steps) * i)`, in exact arithmetic. */
  function Tick(axisMax: int, steps: int, i: int): int
  {
    if steps > 0 then RoundDiv(axisMax * (steps - i), steps) else 0
  }

  /** `getDynamicYAxisLabels`. An empty array gives no labels; so does a negative step
      count (the loop never runs, and `labels[-1] = 0` adds no element). The last label is forced to 0. */
  method YAxisLabels(data: seq<int>, steps: int) returns (labels: seq<int>)
    ensures |data| == 0 || steps < 0 ==> labels == []
    ensures |data| > 0 && steps >= 0 ==> |labels| == steps + 1 && labels[steps] == 0
    ensures |data| > 0 && steps >= 0 ==> forall i :: 0 <= i < steps ==> labels[i] == Tick(AxisMax(MaxOf(data)), steps, i)
  {
    if |data| == 0 {
      return [];
    }
    var max := MaxOf(data);
    var axisMax := AxisMax(max);
    labels := [];
    var i := 0;
    while i <= steps
      invariant 0 <= i && (steps >= 0 ==> i <= steps + 1) && (steps < 0 ==> i == 0)
      invariant |labels| == i
      invariant forall k :: 0 <= k < i ==> labels[k] == Tick(axisMax, steps, k)
    {
      labels := labels + [Tick(axisMax, steps, i)];
      i := i + 1;
    }
    if |labels| > 0 {
      labels := labels[|labels| - 1 := 0];
    }
  }

  /** The first tick is the axis top itself. */
  lemma {:induction false} FirstTickIsAxisMax(axisMax: int, steps: int)
    requires steps > 0
    ensures Tick(axisMax, steps, 0) == axisMax
  {
    assert axisMax * (steps - 0) == axisMax * steps;
    assert 2 * (axisMax * steps) + steps == 2 * steps * axisMax + steps;
    DivUnique(2 * (axisMax * steps) + steps, 2 * steps, axisMax);
  }

  /** For a non-negative top, the ticks descend. */
  lemma {:induction false} TicksDescend(axisMax: int, steps: int, i: int, j: int)
    requires steps > 0 && axisMax >= 0 && 0 <= i <= j <= steps
    ensures Tick(axisMax, steps, j) <= Tick(axisMax, steps, i)
  {
    var pj, pi := axisMax * (steps - j), axisMax * (steps - i);
    MulMonotone(axisMax, steps - j, steps - i);
    assert Tick(axisMax, steps, j) == RoundDiv(pj, steps);
    assert Tick(axisMax, steps, i) == RoundDiv(pi, steps);
    RoundDivMonotone(pj, pi, steps);
  }

  /** For a non-negative top, every tick lies in [0, axisMax]. */
  lemma {:induction false} TickInRange(axisMax: int, steps: int, j: int)
    requires steps > 0 && axisMax >= 0 && 0 <= j <= steps
    ensures 0 <= Tick(axisMax, steps, j) <= axisMax
  {
    var pj := axisMax * (steps - j);
    MulMonotone(axisMax, 0, steps - j);
    assert Tick(axisMax, steps, j) == RoundDiv(pj, steps);
    DivUnique(steps, 2 * steps, 0);
    RoundDivMonotone(0, pj, steps);
    TicksDescend(axisMax, steps, 0, j);
    FirstTickIsAxisMax(axisMax, steps);
  }

  // ---------------------------------------------------------------------------
  // The x axis and the tooltip text.

  /** `xLabels`: 48 slots, the two-digit hour on even slots, empty on odd ones. */
  function XLabels(): (ls: seq<string>)
    ensures |ls| == 48
    ensures forall i :: 0 <= i < 48 && i % 2 == 0 ==> ls[i] == Pad2(i / 2)
    ensures forall i :: 0 <= i < 48 && i % 2 == 1 ==> ls[i] == ""
  {
    seq(48, i requires 0 <= i < 48 => if i % 2 == 0 then Pad2(i / 2) else "")
  }

  /** `getHourLabel`: the half hour of data point `index` as `HH:00` or `HH:30`. */
  function HourLabel(index: nat): (s: string)
    ensures index < 200 ==> |s| == 5 && s[2] == ':'
    ensures index < 200 ==> AllDigits(s[..2]) && DigitsValue(s[..2]) == index / 2
    ensures index < 200 ==> s[3..] == (if index % 2 == 0 then "00" else "30")
    ensures index < 200 ==> AllDigits(s[3..]) && DigitsValue(s[3..]) == (index % 2) * 30
  {
    var s := Pad2(index / 2) + ":" + (if index % 2 == 0 then "00" else "30");
    if index < 200 then
      LabelParts(index / 2, if index % 2 == 0 then "00" else "30");
      s
    else s
  }

  /** `HH:MM` splits back into its two-digit hour and its minutes. */
  lemma {:induction false} LabelParts(h: nat, minutes: string)
    requires h < 100 && (minutes == "00" || minutes == "30")
    ensures var s := Pad2(h) + ":" + minutes;
      |s| == 5 && s[2] == ':' && s[..2] == Pad2(h) && s[3..] == minutes
    ensures AllDigits(minutes) && DigitsValue(minutes) == (if minutes == "00" then 0 else 30)
  {
    var s := Pad2(h) + ":" + minutes;
    assert s[..2] == Pad2(h);
    assert s[3..] == minutes;
    assert minutes[..1] == [minutes[0]] && [minutes[0]][..0] == [];
    assert DigitsValue(minutes) == DigitsValue([minutes[0]]) * 10 + DigitValue(minutes[1]);
    assert DigitsValue([minutes[0]]) == DigitValue(minutes[0]);
  }

  /** Inside a day's 48 points (and up to 200) the labels tell the points apart, and an
      even point's label starts with its x label. */
  lemma {:induction false} HourLabelInjective(i: nat, j: nat)
    requires i < 200 && j < 200
    ensures HourLabel(i) == HourLabel(j) ==> i == j
    ensures i < 48 && i % 2 == 0 ==> HourLabel(i)[..2] == XLabels()[i]
  {
    var a, b := HourLabel(i), HourLabel(j);
    assert a[..2] == Pad2(i / 2) && b[..2] == Pad2(j / 2);
    assert a[3..] == (if i % 2 == 0 then "00" else "30");
    assert b[3..] == (if j % 2 == 0 then "00" else "30");
    if a == b {
      assert DigitsValue(a[..2]) == i / 2 && DigitsValue(b[..2]) == j / 2;
      assert a[3] == b[3];
    }
  }

  // ---------------------------------------------------------------------------
  // Tooltip placement.

  datatype Dot = Dot(x: int, y: int)

  /** `getTooltipPosition`: centred on the dot, kept inside the chart horizontally, never above it. */
  method TooltipPosition(dot: Option<Dot>) returns (left: int, top: int)
    ensures dot.None? ==> left == 0 && top == 0
    ensures 0 <= left <= ChartWidth - TooltipWidth && top >= 0
    ensures dot.Some? && 0 <= dot.value.x - TooltipWidth / 2 <= ChartWidth - TooltipWidth ==> left == dot.value.x - TooltipWidth / 2
    ensures dot.Some? && dot.value.x - TooltipWidth / 2 < 0 ==> left == 0
    ensures dot.Some? && dot.value.x - TooltipWidth / 2 > ChartWidth - TooltipWidth ==> left == ChartWidth - TooltipWidth
    ensures dot.Some? ==> top == (if dot.value.y - TooltipHeight - 8 < 0 then 0 else dot.value.y - TooltipHeight - 8)
  {
    if dot.None? {
      return 0, 0;
    }
    left := dot.value.x - TooltipWidth / 2;
    if left < 0 {
      left := 0;
    }
    if left > ChartWidth - TooltipWidth {
      left := ChartWidth - TooltipWidth;
    }
    top := dot.value.y - TooltipHeight - 8;
    if top < 0 {
      top := 0;
    }
  }
}
