/** The energy heat map (components/heatmap.tsx): a fifteen-day window ending on
    the picked date, a days x 24 grid filled from sparse `(day, hour, value)`
    records, the colour bands, the tooltip placement and the export rows.
    A day is its day number since 1970-01-01 (local time); values are tenths of kWh. */
module HeatMap {
  import opened Text
  import opened Clock

  // ---------------------------------------------------------------------------
  // The window and its labels.

  /** `differenceInCalendarDays(startDate, subDays(startDate, 14)) + 1`. */
  const NumDays: nat := 15

  /** The day number of row `i` of the window ending on `startDay`. */
  function RowDay(startDay: int, i: int): int { startDay - (NumDays - 1) + i }

  /** `yDates`: one `yyyy-MM-dd` per day of the window, oldest first. */
  function YDates(startDay: int): (ys: seq<string>)
    ensures |ys| == NumDays
    ensures forall i :: 0 <= i < NumDays ==> ys[i] == IsoDate(CivilFromDays(RowDay(startDay, i)))
  {
    seq(NumDays, i requires 0 <= i < NumDays => IsoDate(CivilFromDays(RowDay(startDay, i))))
  }

  /** The window runs from `startDay - 14` to `startDay`, one distinct date per row. */
  lemma {:induction false} YDatesDistinct(startDay: int)
    ensures forall i, j :: 0 <= i < j < NumDays ==> YDates(startDay)[i] != YDates(startDay)[j]
    ensures YDates(startDay)[0] == IsoDate(CivilFromDays(startDay - 14))
    ensures YDates(startDay)[NumDays - 1] == IsoDate(CivilFromDays(startDay))
  {
    forall i, j | 0 <= i < j < NumDays ensures YDates(startDay)[i] != YDates(startDay)[j] {
      var a, b := CivilFromDays(RowDay(startDay, i)), CivilFromDays(RowDay(startDay, j));
      IsoDateInjective(a, b);
      CivilFromDaysInjective(RowDay(startDay, i), RowDay(startDay, j));
    }
  }

  function MonthAbbrev(m: nat): (s: string)
    requires 1 <= m <= 12
    ensures |s| == 3
  {
    ["Jan", "Feb", "Mar", "Apr", "May", "Jun", "Jul", "Aug", "Sep", "Oct", "Nov", "Dec"][m - 1]
  }

  /** Distinct months have distinct abbreviations, so an end label names its month. */
  lemma {:induction false} MonthAbbrevInjective(a: nat, b: nat)
    requires 1 <= a <= 12 && 1 <= b <= 12
    ensures MonthAbbrev(a) == MonthAbbrev(b) ==> a == b
  {
    var names := ["Jan", "Feb", "Mar", "Apr", "May", "Jun", "Jul", "Aug", "Sep", "Oct", "Nov", "Dec"];
    assert forall i, j :: 0 <= i < j < 12 ==> names[i] != names[j];
  }

  /** `yLabels[i]`: `MMM d` on the first and last row, `d` on the others. */
  function YLabel(startDay: int, i: nat): (s: string)
    requires i < NumDays
    ensures var d := CivilFromDays(RowDay(startDay, i));
      i == 0 || i == NumDays - 1 ==> s == MonthAbbrev(d.month) + " " + NatToString(d.day)
    ensures var d := CivilFromDays(RowDay(startDay, i));
      0 < i < NumDays - 1 ==> s == NatToString(d.day)
    ensures var d := CivilFromDays(RowDay(startDay, i));
      i == 0 || i == NumDays - 1 ==>
        s[..3] == MonthAbbrev(d.month) && s[3] == ' ' && AllDigits(s[4..]) && DigitsValue(s[4..]) == d.day
    ensures 0 < i < NumDays - 1 ==> AllDigits(s) && DigitsValue(s) == CivilFromDays(RowDay(startDay, i)).day
  {
    var d := CivilFromDays(RowDay(startDay, i));
    NatToStringRoundTrip(d.day);
    assert (MonthAbbrev(d.month) + " " + NatToString(d.day))[4..] == NatToString(d.day);
    if i == 0 || i == NumDays - 1 then MonthAbbrev(d.month) + " " + NatToString(d.day) else NatToString(d.day)
  }

  /** `xLabels[i]` and the export's hour cell: `${i}:00`. */
  function HourLabel(i: nat): (s: string)
    ensures |s| >= 4 && s[|s| - 3..] == ":00"
    ensures AllDigits(s[..|s| - 3]) && DigitsValue(s[..|s| - 3]) == i
  {
    var s := NatToString(i) + ":00";
    assert s[..|s| - 3] == NatToString(i);
    NatToStringRoundTrip(i);
    s
  }

  /** A picked date after today is replaced by today (`isAfter(date, today) ? today : date`). */
  function ClampPicked(date: int, today: int): (r: int)
    ensures r <= today
    ensures r == date || r == today
    ensures date <= today ==> r == date
  {
    if date > today then today else date
  }

  lemma {:induction false} ClampPickedIdempotent(date: int, today: int)
    ensures ClampPicked(ClampPicked(date, today), today) == ClampPicked(date, today)
  {
  }

  // ---------------------------------------------------------------------------
  // The grid.

  /** One element of `consumptionData`. */
  datatype Record = Record(day: string, hour: int, value: int)

  /** `Array.prototype.indexOf`: the first position holding `x`, or -1. */
  function IndexOf(s: seq<string>, x: string): (r: int)
    ensures -1 <= r < |s|
    ensures r >= 0 ==> s[r] == x && forall k :: 0 <= k < r ==> s[k] != x
    ensures r == -1 ==> x !in s
  {
    if |s| == 0 then -1
    else if s[0] == x then 0
    else
      var r := IndexOf(s[1..], x);
      assert forall k :: 1 <= k < |s| ==> s[k] == s[1..][k - 1];
      if r == -1 then -1 else r + 1
  }

  /** With distinct dates, a date of the window is found at its own row. */
  lemma {:induction false} IndexOfDistinct(s: seq<string>, i: nat)
    requires i < |s| && forall a, b :: 0 <= a < b < |s| ==> s[a] != s[b]
    ensures IndexOf(s, s[i]) == i
  {
  }

  /** Whether a record is written to cell (r, c): its day is a row of the window and 0 <= hour < 24. */
  predicate Hits(yDates: seq<string>, x: Record, r: int, c: int)
  {
    IndexOf(yDates, x.day) == r && 0 <= x.hour < 24 && x.hour == c
  }

  /** The cell after the records are applied in order: the last record that hits it, else 0. */
  function Cell(yDates: seq<string>, records: seq<Record>, r: int, c: int): int
  {
    if |records| == 0 then 0
    else
      var x := records[|records| - 1];
      if Hits(yDates, x, r, c) then x.value else Cell(yDates, records[..|records| - 1], r, c)
  }

  /** A cell no record hits stays 0; a hit cell holds the value of the last record that hits it. */
  lemma {:induction false} CellMeaning(yDates: seq<string>, records: seq<Record>, r: int, c: int)
    ensures (forall k :: 0 <= k < |records| ==> !Hits(yDates, records[k], r, c)) ==> Cell(yDates, records, r, c) == 0
    ensures (exists k :: 0 <= k < |records| && Hits(yDates, records[k], r, c)) ==>
      exists k :: 0 <= k < |records| && Hits(yDates, records[k], r, c) && Cell(yDates, records, r, c) == records[k].value
        && forall k' :: k < k' < |records| ==> !Hits(yDates, records[k'], r, c)
  {
    if |records| > 0 {
      var n := |records|;
      var front := records[..n - 1];
      CellMeaning(yDates, front, r, c);
      assert forall k :: 0 <= k < n - 1 ==> front[k] == records[k];
      if !Hits(yDates, records[n - 1], r, c) && exists k :: 0 <= k < n && Hits(yDates, records[k], r, c) {
        var k :| 0 <= k < n && Hits(yDates, records[k], r, c);
        assert Hits(yDates, front[k], r, c);
      }
    }
  }

  /** A record whose day is not in the window, or whose hour is outside 0..23, changes no cell. */
  lemma {:induction false} IgnoredRecord(yDates: seq<string>, records: seq<Record>, x: Record, r: int, c: int)
    requires IndexOf(yDates, x.day) == -1 || x.hour < 0 || x.hour >= 24
    requires 0 <= r
    ensures Cell(yDates, records + [x], r, c) == Cell(yDates, records, r, c)
  {
    assert !Hits(yDates, x, r, c);
    assert (records + [x])[..|records|] == records;
  }

  /** The fetch effect's fill: a grid of zeros, then every record written where its day and hour fall in range. */
  method FillGrid(yDates: seq<string>, records: seq<Record>) returns (grid: array2<int>)
    ensures grid.Length0 == |yDates| && grid.Length1 == 24
    ensures forall r, c :: 0 <= r < |yDates| && 0 <= c < 24 ==> grid[r, c] == Cell(yDates, records, r, c)
  {
    grid := new int[|yDates|, 24]((_, _) => 0);
    var i := 0;
    while i < |records|
      invariant 0 <= i <= |records|
      invariant grid.Length0 == |yDates| && grid.Length1 == 24
      invariant forall r, c :: 0 <= r < |yDates| && 0 <= c < 24 ==> grid[r, c] == Cell(yDates, records[..i], r, c)
    {
      var item := records[i];
      var dayIndex := IndexOf(yDates, item.day);
      if dayIndex != -1 && item.hour >= 0 && item.hour < 24 {
        grid[dayIndex, item.hour] := item.value;
      }
      assert records[..i + 1][..i] == records[..i];
      i := i + 1;
    }
    assert records[..i] == records;
  }

  /** The whole effect: the filled grid, or the all-zero grid when the request or the payload fails. */
  method LoadGrid(yDates: seq<string>, response: Option<seq<Record>>) returns (grid: array2<int>)
    ensures grid.Length0 == |yDates| && grid.Length1 == 24
    ensures response.None? ==> forall r, c :: 0 <= r < |yDates| && 0 <= c < 24 ==> grid[r, c] == 0
    ensures response.Some? ==> forall r, c :: 0 <= r < |yDates| && 0 <= c < 24 ==> grid[r, c] == Cell(yDates, response.value, r, c)
  {
    match response
    case None =>
      grid := new int[|yDates|, 24]((_, _) => 0);
    case Some(records) =>
      grid := FillGrid(yDates, records);
  }

  // ---------------------------------------------------------------------------
  // Colours.

  const ColorValues: seq<string> := [
    "#066A06", "#298F35", "#4DB458", "#6AC96A", "#8EDC7F", "#B1EF98", "#BBF558",
    "#DAEF2A", "#F9E900", "#FFF400", "#FFE300", "#FFC200", "#FFA100", "#FF8100",
    "#FF5F00", "#FF3F00", "#FF1000"]

  /** `getColor`, on a value in tenths: the threshold `value <= 29` reads `v <= 290`. */
  function GetColor(v: int): string
  {
    if v <= 290 then "#066A06"
    else if v <= 580 then "#298F35"
    else if v <= 870 then "#4DB458"
    else if v <= 1160 then "#6AC96A"
    else if v <= 1450 then "#8EDC7F"
    else if v <= 1740 then "#B1EF98"
    else if v <= 2030 then "#BBF558"
    else if v <= 2320 then "#DAEF2A"
    else if v <= 2610 then "#F9E900"
    else if v <= 2900 then "#FFF400"
    else if v <= 3190 then "#FFE300"
    else if v <= 3480 then "#FFC200"
    else if v <= 3770 then "#FFA100"
    else if v <= 4060 then "#FF8100"
    else if v <= 4350 then "#FF5F00"
    else if v <= 4640 then "#FF3F00"
    else "#FF1000"
  }

  /** The band of a value: bands are 29 kWh wide, the first holds everything up to 29, the last everything above 464. */
  function Band(v: int): (k: nat)
    ensures k < |ColorValues|
    ensures k == 0 <==> v <= 290
    ensures k == 16 <==> v > 4640
    ensures 0 < k < 16 ==> 290 * k < v <= 290 * (k + 1)
  {
    if v <= 290 then 0 else if v > 4640 then 16 else (v - 1) / 290
  }

  /** `getColor` is the band's entry of `colorValues`. */
  lemma {:induction false} GetColorIsBand(v: int)
    ensures GetColor(v) == ColorValues[Band(v)]
  {
    var k := Band(v);
    if 0 < k < 16 {
      assert 290 * k < v <= 290 * (k + 1);
      assert k == 1 || k == 2 || k == 3 || k == 4 || k == 5 || k == 6 || k == 7 || k == 8
        || k == 9 || k == 10 || k == 11 || k == 12 || k == 13 || k == 14 || k == 15;
    }
  }

  /** Higher values never fall in a lower band. */
  lemma {:induction false} BandMonotone(a: int, b: int)
    requires a <= b
    ensures Band(a) <= Band(b)
  {
  }

  // ---------------------------------------------------------------------------
  // The tooltip.

  const TooltipWidth: int := 140
  const TooltipHeight: int := 56
  const TooltipMargin: int := 8

  function Max(a: int, b: int): int { if a >= b then a else b }
  function Min(a: int, b: int): int { if a <= b then a else b }

  /** The render-time placement: pushed back inside the right/bottom edge, then the left/top margin wins. */
  method PlaceTooltip(layoutX: int, layoutY: int, tipLeft: int, tipTop: int, scrollOffset: int, screenWidth: int, screenHeight: int)
    returns (left: int, top: int)
    ensures left == Max(TooltipMargin, Min(layoutX + tipLeft - scrollOffset, screenWidth - TooltipWidth - TooltipMargin))
    ensures top == Max(TooltipMargin, Min(layoutY + tipTop, screenHeight - TooltipHeight - TooltipMargin))
    ensures left >= TooltipMargin && top >= TooltipMargin
    ensures screenWidth >= TooltipWidth + 2 * TooltipMargin ==> left + TooltipWidth + TooltipMargin <= screenWidth
    ensures screenHeight >= TooltipHeight + 2 * TooltipMargin ==> top + TooltipHeight + TooltipMargin <= screenHeight
  {
    var intendedTop := layoutY + tipTop;
    var intendedLeft := layoutX + tipLeft - scrollOffset;
    left := intendedLeft;
    if left + TooltipWidth + TooltipMargin > screenWidth {
      left := screenWidth - TooltipWidth - TooltipMargin;
    }
    if left < TooltipMargin {
      left := TooltipMargin;
    }
    top := intendedTop;
    if top + TooltipHeight + TooltipMargin > screenHeight {
      top := screenHeight - TooltipHeight - TooltipMargin;
    }
    if top < TooltipMargin {
      top := TooltipMargin;
    }
  }

  datatype Point = Point(left: int, top: int)

  /** `isPressInsideTooltip`: no tooltip, no hit; otherwise the closed rectangle, edges included. */
  predicate PressInside(tooltip: Option<Point>, pageX: int, pageY: int)
  {
    tooltip.Some? && tooltip.value.left <= pageX <= tooltip.value.left + TooltipWidth
    && tooltip.value.top <= pageY <= tooltip.value.top + TooltipHeight
  }

  /** All four corners of the tooltip count as inside; one step past any edge does not. */
  lemma {:induction false} PressInsideEdges(p: Point)
    ensures PressInside(Some(p), p.left, p.top) && PressInside(Some(p), p.left + TooltipWidth, p.top + TooltipHeight)
    ensures PressInside(Some(p), p.left + TooltipWidth, p.top) && PressInside(Some(p), p.left, p.top + TooltipHeight)
    ensures !PressInside(Some(p), p.left - 1, p.top) && !PressInside(Some(p), p.left + TooltipWidth + 1, p.top)
    ensures !PressInside(Some(p), p.left, p.top - 1) && !PressInside(Some(p), p.left, p.top + TooltipHeight + 1)
    ensures forall x, y :: !PressInside(None, x, y)
  {
  }

  // ---------------------------------------------------------------------------
  // Export.

  /** A cell handed to `aoa_to_sheet`; `undefined` leaves it blank. */
  datatype SheetCell = Str(s: string) | Num(n: int) | Blank

  datatype Export = NoData | Sheet(rows: seq<seq<SheetCell>>)

  function DateCell(yDates: seq<string>, r: nat): SheetCell
  {
    if r < |yDates| then Str(yDates[r]) else Blank
  }

  /** One exported row: the date, `${c}:00` and the value. */
  function SheetRow(date: SheetCell, c: nat, value: int): seq<SheetCell>
  {
    [date, Str(HourLabel(c)), Num(value)]
  }

  /** `data.flatMap((row, r) => row.map((value, c) => [yDates[r], `${c}:00`, value]))` from row `r` on. */
  function Flatten(data: seq<seq<int>>, yDates: seq<string>, r: nat): seq<seq<SheetCell>>
    requires r <= |data|
    decreases |data| - r
  {
    if r == |data| then []
    else
      seq(|data[r]|, c requires 0 <= c < |data[r]| => SheetRow(DateCell(yDates, r), c, data[r][c]))
        + Flatten(data, yDates, r + 1)
  }

  /** On a grid of 24 columns the flattening is row-major: row `r`, column `c` lands at `24 (r - r0) + c`. */
  lemma {:induction false} FlattenRowMajor(data: seq<seq<int>>, yDates: seq<string>, r0: nat)
    requires r0 <= |data| && forall r :: 0 <= r < |data| ==> |data[r]| == 24
    ensures |Flatten(data, yDates, r0)| == 24 * (|data| - r0)
    ensures forall r, c :: r0 <= r < |data| && 0 <= c < 24 ==>
      Flatten(data, yDates, r0)[24 * (r - r0) + c] == SheetRow(DateCell(yDates, r), c, data[r][c])
    decreases |data| - r0
  {
    if r0 < |data| {
      FlattenRowMajor(data, yDates, r0 + 1);
      var head := seq(24, c requires 0 <= c < 24 => SheetRow(DateCell(yDates, r0), c, data[r0][c]));
      var rest := Flatten(data, yDates, r0 + 1);
      assert Flatten(data, yDates, r0) == head + rest;
      forall r, c | r0 <= r < |data| && 0 <= c < 24
        ensures (head + rest)[24 * (r - r0) + c] == SheetRow(DateCell(yDates, r), c, data[r][c])
      {
        if r > r0 {
          assert 24 * (r - r0) + c == 24 + (24 * (r - (r0 + 1)) + c);
        }
      }
    }
  }

  /** `format(windowStart, 'yyyy-MM-dd')` and `format(windowEnd, 'yyyy-MM-dd')`. */
  function WindowRange(startDay: int): (string, string)
  {
    (IsoDate(CivilFromDays(startDay - 14)), IsoDate(CivilFromDays(startDay)))
  }

  /** The header's range names the first and the last row of the grid. */
  lemma {:induction false} WindowRangeIsRows(startDay: int)
    ensures WindowRange(startDay) == (YDates(startDay)[0], YDates(startDay)[NumDays - 1])
  {
    YDatesDistinct(startDay);
  }

  const ColumnRow: seq<SheetCell> := [Str("Date"), Str("Hour"), Str("Energy Consumed (kWh)")]

  /** `downloadExcel` up to `aoa_to_sheet`, given the formatted window bounds: "No Data" on an
      empty grid, else the header, the column names and one row per cell. */
  function ExportSheet(data: seq<seq<int>>, yDates: seq<string>, startDate: string, endDate: string): (e: Export)
    ensures e.NoData? <==> |data| == 0
    ensures e.Sheet? ==> |e.rows| >= 2 && e.rows[0] == [Str("Start: " + startDate), Str("End: " + endDate), Str("")]
    ensures e.Sheet? ==> e.rows[1] == ColumnRow
  {
    if |data| == 0 then NoData
    else Sheet([[Str("Start: " + startDate), Str("End: " + endDate), Str("")], ColumnRow] + Flatten(data, yDates, 0))
  }

  /** Two header rows shift every flattened row down by two. */
  lemma {:induction false} AfterHeader<T>(rows: seq<T>, h0: T, h1: T, f: seq<T>)
    requires rows == [h0, h1] + f
    ensures forall k :: 0 <= k < |f| ==> rows[2 + k] == f[k]
  {
  }

  /** The exported sheet of a grid: `2 + 24 * numDays` rows, the cell (r, c) on row `2 + 24 r + c`. */
  lemma {:induction false} ExportShape(data: seq<seq<int>>, yDates: seq<string>, startDate: string, endDate: string, r: nat, c: nat)
    requires |data| > 0 && forall i :: 0 <= i < |data| ==> |data[i]| == 24
    requires r < |data| && c < 24
    ensures var e := ExportSheet(data, yDates, startDate, endDate);
      e.Sheet? && |e.rows| == 2 + 24 * |data|
      && e.rows[2 + 24 * r + c] == SheetRow(DateCell(yDates, r), c, data[r][c])
  {
    FlattenRowMajor(data, yDates, 0);
    var f := Flatten(data, yDates, 0);
    var rows := ExportSheet(data, yDates, startDate, endDate).rows;
    AfterHeader(rows, [Str("Start: " + startDate), Str("End: " + endDate), Str("")], ColumnRow, f);
    var k := 24 * r + c;
    assert 24 * (r - 0) + c == k;
    assert rows[2 + k] == f[k];
  }
}
