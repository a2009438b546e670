# Energy dashboard core, modelled in Dafny

This project models the deterministic core of a mobile energy-monitoring dashboard. The core
has two parts:

- The React Native client turns replies from the metering API into fixed-shape arrays:
  - a 15-day × 24-hour heat map;
  - twelve energy-meter cards split into pages of eight;
  - a 24 × 12 zone chart;
  - an hourly series sorted by time;
  - the rows of the Excel exports.
  It also keeps date-range picker state and applies many small display rules: status
  windows, label fallbacks, y-axis ticks, tooltip clamps, colour bands and carousel cursors.
- Two Express routes (`backend/routes/hcons.js` and `backend/routes/lcons.js`) aggregate
  meter readings in SQL. They keep meters 1..11 inside an inclusive time window, take
  MAX − MIN per group, round to tenths, and either sum the results or accumulate them per
  hour.

Each source file has its own module:

| module | source |
|---|---|
| `HeatMap` | `components/heatmap.tsx` |
| `EnergyMeters` | `components/energymeters.tsx` |
| `Zones` | `components/zones.tsx` |
| `ELog` | `components/elog.tsx` |
| `HourlyEnergy` | `components/hourlyenergy.tsx` |
| `PeakDemand` | `components/peakdemand.tsx` |
| `RangePicker` | `components/datetimerangepicker.tsx` |
| `DateCard` | `components/datepicker.tsx` |
| `AnComp` | `components/an-comp.tsx` |
| `DateTimeContext` | `components/datetimecontext.tsx` |
| `Battery` | `components/battery.tsx` |
| `EVChargers` | `components/ev.tsx` |
| `DieselGen` | `components/dieselgenerator.tsx` |
| `DgModal` | `components/dgdetailsmodal.tsx` |
| `HourlyConsumption`, `HourlyRoute` | `backend/routes/hcons.js` |
| `TotalConsumption` | `backend/routes/lcons.js` |

Shared modules:

- `Text`: digits, `padStart`, JavaScript `split`, `parseInt` without a radix (decimal, or hexadecimal after `0x`).
- `Clock`: local seconds ↔ civil date and time, and the zero-padded formatters with their parsers.
- `Picker`: the picker mode and the confirm rule that moves only one bound.
- `Readings`: `modbus_data` rows and the SQL aggregates.
- `Dict`: insertion-ordered JavaScript objects.
- `Units`: the kVAh/kWh toggle.

Representation choices:

- Times are integer seconds of local wall-clock time. Calendar dates come from an explicit
  days ↔ civil conversion in the proleptic Gregorian calendar.
- Meter readings are integer hundredths. Results of `ROUND(…, 1)` and `toFixed(1)` are
  integer tenths.
- Component state is a `class` whose methods are the handlers and effects. Pure helpers are
  functions.
- Every reply from the network or the database is a parameter. `None` means the request
  failed.

Where the description of the system and the code disagree, the model follows the code.
`components/elog.tsx:114` gives an unknown zone the category `""` (not `"N/A"`), so its
label is the bare `Zone <id>`.

## Model

| member | source | states |
|---|---|---|
| HeatMap.YDates | components/heatmap.tsx:64-75 | 15 dates, row i being the day startDate − 14 + i (ISO `YYYY-MM-DD`) |
| HeatMap.YDatesDistinct | components/heatmap.tsx:64-75 | the 15 dates are pairwise distinct, the first is startDate − 14 days and the last is startDate |
| HeatMap.YLabel | components/heatmap.tsx:68-72 | the first and last labels are `Mon d` (e.g. `Jan 5`: the month's abbreviation, a space, the unpadded day) and read back to that month and day; the others are the bare day number |
| HeatMap.MonthAbbrevInjective | components/heatmap.tsx:70 | distinct months have distinct abbreviations, so an end label names one month |
| HeatMap.HourLabel | components/heatmap.tsx:76 | the column label is the hour's digits followed by `:00` |
| HeatMap.ClampPicked | components/heatmap.tsx:228 | a picked date after today becomes today; earlier dates are kept |
| HeatMap.ClampPickedIdempotent | components/heatmap.tsx:228 | clamping twice equals clamping once |
| HeatMap.IndexOf | components/heatmap.tsx:98 | `yDates.indexOf(day)` is the first matching position, or −1 exactly when the day is absent |
| HeatMap.IndexOfDistinct | components/heatmap.tsx:98 | in a list of distinct dates, the index of entry i is i |
| HeatMap.CellMeaning | components/heatmap.tsx:97-101 | a cell is 0 when no record hits it, else the value of the LAST record that hits it (later records overwrite) |
| HeatMap.IgnoredRecord | components/heatmap.tsx:99 | a record whose day is not in the window or whose hour is outside 0..23 changes no cell |
| HeatMap.FillGrid | components/heatmap.tsx:94-102 | the array has one row per date and 24 columns, and every cell equals the reference function `Cell` (no out-of-bounds write) |
| HeatMap.LoadGrid | components/heatmap.tsx:93-108 | a failed fetch gives the all-zero grid of one row per date and 24 columns; a reply gives the filled grid |
| HeatMap.Band | components/heatmap.tsx:203-221 | 17 bands of width 29 kWh (290 tenths): band 0 iff v ≤ 29, band 16 iff v > 464, otherwise 29k < v ≤ 29(k+1) |
| HeatMap.GetColorIsBand | components/heatmap.tsx:197-221 | `getColor` returns `colorValues[Band(v)]`, so > 464 gives the last entry `#FF1000` |
| HeatMap.BandMonotone | components/heatmap.tsx:203-221 | the band is monotone in the value |
| HeatMap.PlaceTooltip | components/heatmap.tsx:240-260 | left/top are clamped to the screen with the margin bound applied last: both ≥ margin, and inside the screen when it is wide/tall enough |
| HeatMap.PressInsideEdges | components/heatmap.tsx:262-272 | the hit-test rectangle is inclusive on all four edges, one pixel outside misses, no tooltip never hits |
| HeatMap.FlattenRowMajor | components/heatmap.tsx:133-139 | flattening gives 24 rows per day, row 24r + c being (yDates[r], `c:00`, data[r][c]) |
| HeatMap.WindowRangeIsRows | components/heatmap.tsx:125-129 | the exported start and end dates are the first and last row dates |
| HeatMap.ExportSheet | components/heatmap.tsx:119-141 | "No Data" iff the grid is empty; otherwise the header row and column row come first |
| HeatMap.ExportShape | components/heatmap.tsx:133-141 | a non-empty export has 2 + 24·days rows with cell (r, c) at row 2 + 24r + c |
| EnergyMeters.GetZoneInfo | components/energymeters.tsx:50-57 | 0 → TOTAL CONSUMPTION with null category, 1..12 → the table entry, anything else → Unknown Zone / N/A |
| EnergyMeters.BadgeRule | components/energymeters.tsx:71-84 | the block badge shows exactly for ids other than 0 and 12 |
| EnergyMeters.Find | components/energymeters.tsx:140 | `find` returns the first API record with the id, and nothing iff none has it |
| EnergyMeters.Merge | components/energymeters.tsx:134-142 | always 12 entries with ids 1..12 in ascending order |
| EnergyMeters.MergeMeaning | components/energymeters.tsx:139-142 | entry i is the first API record with id i + 1, else consumption 0; ids outside 1..12 are dropped |
| EnergyMeters.Others | components/energymeters.tsx:164 | keeps exactly the meters whose id is not 12 |
| EnergyMeters.Transformer | components/energymeters.tsx:166 | keeps exactly the meters whose id is 12 |
| EnergyMeters.FiltersPartition | components/energymeters.tsx:164-166 | the two filters split the list: their lengths add up to its length |
| EnergyMeters.AllMetersShape | components/energymeters.tsx:163-167 | `allMeters` is one longer than the merged list, holds the total entry right after the non-12 meters, and nothing else is added |
| EnergyMeters.AllMetersOfMerge | components/energymeters.tsx:163-167 | for the merged list, `allMeters` is meters 1..11, then {id 0, total}, then meter 12 |
| EnergyMeters.Paginate | components/energymeters.tsx:169-172 | ceil(n/8) pages, page k is the slice [8k, 8k+8), each holds 1..8 items, only the last may be short, and the pages concatenate to the input |
| EnergyMeters.DetailsParams | components/energymeters.tsx:88-97 | the navigation params carry `meterId` iff the id is not 0 |
| EnergyMeters.DetailsParamsRoundTrip | components/energymeters.tsx:95 | the `meterId` string parses back to the id |
| EnergyMeters.TotalOf | components/energymeters.tsx:150-154 | the total is the reply's consumption, or 0 when the field is missing or the request failed |
| EnergyMeters.EnergyMetersView.ZonePages | components/energymeters.tsx:163-172 | the pages of the current state concatenate to `allMeters`, each holds 1..8 items |
| EnergyMeters.EnergyMetersView.FetchData | components/energymeters.tsx:118-161 | without both datetimes or on a failed first request the state is kept; otherwise the merged list and `TotalOf` are stored |
| EnergyMeters.EnergyMetersView.constructor | components/energymeters.tsx:112-113 | starts with no meters and a total of 0 |
| Zones.EndpointInjective | components/zones.tsx:66-74 | the four (view, unit) pairs select four different endpoints |
| Zones.RequestFor | components/zones.tsx:76-85 | the request carries the range, and a `zone` parameter only in the single view |
| Zones.ParseHourOfParts | components/zones.tsx:151 | the hour is the number between the first space and the next `:` |
| Zones.ParseHourOfFormatted | components/zones.tsx:151 | a `YYYY-MM-DD HH:mm:ss` timestamp parses to its hour |
| Zones.HourlyLabels | components/zones.tsx:141-143 | the 24 labels are the two-digit hours 00..23 |
| Zones.GroupOfMembers | components/zones.tsx:89-96 | a group holds exactly the items with that meter id |
| Zones.GroupBy | components/zones.tsx:89-96 | the in-place `reduce` builds the dictionary `Grouped` |
| Zones.GroupedMeaning | components/zones.tsx:89-96 | the keys are distinct, a key is present iff some item has that id, and its group is that id's items in input order |
| Zones.MetadataIds | components/zones.tsx:8-21 | the metadata lists zones 1..12 in order |
| Zones.Parse | components/zones.tsx:102-107 | one point per item, carrying its hour and the selected unit's value (0 when missing) |
| Zones.Format | components/zones.tsx:98-115 | at most one entry per metadata zone |
| Zones.FormatSound | components/zones.tsx:98-115 | each entry is a metadata zone with data, with its name and category and its parsed group |
| Zones.FormatComplete | components/zones.tsx:98-99 | every metadata zone that has a group appears |
| Zones.FormatOrdered | components/zones.tsx:98-100 | entries keep metadata order (ascending ids) |
| Zones.FindZone | components/zones.tsx:149 | `find` by zone id returns a member with that id, and nothing iff there is none |
| Zones.FirstMatchMeaning | components/zones.tsx:150-153 | the first item whose hour parses to the row, or none when no item matches |
| Zones.FirstMatchOfGroup | components/zones.tsx:149-153 | searching a meter's group gives the same first match as searching all items |
| Zones.FindPointOfParse | components/zones.tsx:150-154 | searching the parsed points finds the first matching item's value |
| Zones.CellOfData | components/zones.tsx:147-155 | a chart cell is the first matching item's value for that zone and hour, else 0 |
| Zones.ChartAll | components/zones.tsx:147-156 | the all-zones matrix is 24 × 12 and cell (h, c) is the cell value of zone c at hour h |
| Zones.ChartSingle | components/zones.tsx:172-178 | the single-zone chart is 24 singleton rows |
| Zones.ChartAllOfData | components/zones.tsx:147-156 | from the raw reply: 24 × 12, each cell the first matching item's value, else 0 |
| Zones.ChartSingleOfData | components/zones.tsx:169-178 | from the raw reply: 24 singleton rows holding the selected zone's first value per hour |
| Zones.SingleLegend | components/zones.tsx:182 | the legend is "" unless the selected id parses and some zone carries it, and a non-empty legend is the name of a zone with that id |
| Zones.ZonesView.constructor | components/zones.tsx:30-42 | kVAh, all zones, zone "1", no data |
| Zones.ZonesView.OnMeterId | components/zones.tsx:45-52 | a truthy `meterId` selects the single view with that zone (the first element of an array); otherwise the view becomes all |
| Zones.ZonesView.ToggleSwitch | components/zones.tsx:131-133 | swaps the unit and changes nothing else |
| Zones.ZonesView.FetchZoneData | components/zones.tsx:60-124 | sends `RequestFor` the current state; a failed request keeps the data, a reply stores the formatted groups |
| Zones.ZonesView.ChartData | components/zones.tsx:145-187 | 24 rows, 12 wide in the all view and 1 wide in the single view |
| ELog.ZoneMeta | components/elog.tsx:114 | ids 1..14 give the table entry, others `Zone <id>` with an empty category |
| ELog.DisplayLabel | components/elog.tsx:117 | `name (category)` when the category is non-empty, else the name |
| ELog.LabelRule | components/elog.tsx:51-66 | only meters 1..11 carry a block; unknown ids show `Zone <id>` |
| ELog.ZoneRows | components/elog.tsx:113-131 | exactly two rows per zone, in zone order |
| ELog.RowsShape | components/elog.tsx:119-130 | rows have four cells, the second row starts with "", and missing readings export as N/A |
| ELog.ExportSheet | components/elog.tsx:103-133 | "No Data" iff there are no zones; otherwise the header, the column names and rows 2k+2 and 2k+3 for zone k |
| ELog.Consumed | components/elog.tsx:281-283 | max[unit] − min[unit], defined when both readings carry the unit |
| ELog.CardHeading | components/elog.tsx:285-287 | the card uses the same table and fallback as the export |
| ELog.EffectiveRange | components/elog.tsx:78-79 | empty props default to yesterday's and today's midnight |
| ELog.DefaultRangeDistinct | components/elog.tsx:78-79 | the two defaults differ |
| ELog.ELogView.constructor | components/elog.tsx:69-71 | kVAh and no zones |
| ELog.ELogView.ToggleSwitch | components/elog.tsx:195-197 | swaps kVAh and kWh, keeps the zones |
| ELog.ELogView.FetchData | components/elog.tsx:75-96 | asks for the effective range; a failure keeps the zones, a missing payload becomes [] |
| HourlyEnergy.EndpointInjective | components/hourlyenergy.tsx:61-64 | the three metrics map to three different endpoints |
| HourlyEnergy.SortByTimeSorted | components/hourlyenergy.tsx:82-85 | the sorted entries ascend by timestamp |
| HourlyEnergy.SortByTimePermutes | components/hourlyenergy.tsx:76-85 | sorting is a permutation of the entries |
| HourlyEnergy.SortByTimeStable | components/hourlyenergy.tsx:82-85 | entries with equal timestamps keep their input order |
| HourlyEnergy.Series | components/hourlyenergy.tsx:76-88 | labels and data have one element per entry, taken from the sorted entries, non-numeric values as 0 |
| HourlyEnergy.LabelsAreHours | components/hourlyenergy.tsx:78-87 | every label is an hour 0..23 in digits |
| HourlyEnergy.ChartWidth | components/hourlyenergy.tsx:180-183 | the width is max(n·50 + 60, screen width) |
| HourlyEnergy.ChartWidthMonotone | components/hourlyenergy.tsx:180-183 | one more bar never narrows the chart |
| HourlyEnergy.ExportSheet | components/hourlyenergy.tsx:107-120 | "No Data" iff there are no entries; otherwise one value per entry and the metric's column names |
| HourlyEnergy.HourlyEnergyView.constructor | components/hourlyenergy.tsx:50-53 | empty series, kVAh |
| HourlyEnergy.HourlyEnergyView.FetchData | components/hourlyenergy.tsx:58-100 | no request without both datetimes; an error clears both arrays; a reply stores the series; labels and data stay equally long |
| HourlyEnergy.HourlyEnergyView.SelectMetric | components/hourlyenergy.tsx:52 | sets the metric, nothing else |
| PeakDemand.MaxOf | components/peakdemand.tsx:22 | `Math.max` of a non-empty array is an element not below any other |
| PeakDemand.AxisMax | components/peakdemand.tsx:23-33 | the least multiple of 100 (max > 1000), 50 (max > 500) or 10 not below max |
| PeakDemand.YAxisLabels | components/peakdemand.tsx:21-38 | no labels for empty data; otherwise steps + 1 labels, tick i for i < steps and 0 last |
| PeakDemand.FirstTickIsAxisMax | components/peakdemand.tsx:23-33 | the first label equals axisMax |
| PeakDemand.TicksDescend | components/peakdemand.tsx:31-36 | for non-negative data the labels do not increase |
| PeakDemand.TickInRange | components/peakdemand.tsx:31-36 | every label lies in [0, axisMax] |
| PeakDemand.RoundDiv | components/peakdemand.tsx:33 | `Math.round(p / q)` is the nearest integer, halves rounded up |
| PeakDemand.XLabels | components/peakdemand.tsx:83-89 | 48 labels, the two-digit hour i/2 at even i and "" at odd i |
| PeakDemand.HourLabel | components/peakdemand.tsx:134-140 | for point `index`, five characters: two digits reading `index / 2`, a `:`, then `00` on even points and `30` on odd ones (minutes `(index % 2) · 30`) |
| PeakDemand.HourLabelInjective | components/peakdemand.tsx:134-140 | labels tell points apart, and an even point's label starts with its x label |
| PeakDemand.TooltipPosition | components/peakdemand.tsx:123-131 | (0, 0) without a dot; otherwise left is clamped into [0, 910] and top is at least 0 |
| Picker.SetBound | components/datepicker.tsx:112-114 | the picked bound takes the date and the other is kept |
| Picker.SetBoundOneSide | components/datepicker.tsx:112-114 | at most one bound moves, and repeating the confirm changes nothing |
| Picker.SetBoundMayReorder | components/an-comp.tsx:114-120 | a start confirmed after the end leaves start > end |
| Picker.ReportReadsBack | components/datetimerangepicker.tsx:45-47 | the reported strings parse back to exactly the two instants' fields |
| Clock.ParseFormatRoundTrip | components/datetimerangepicker.tsx:45-47 | the zero-padded `YYYY-MM-DD HH:mm:ss` rendering parses back to the date-time |
| Clock.StartOfDay | components/datetimerangepicker.tsx:26-31 | today at 00:00:00: same day, not after now |
| Clock.StartOfMinute | components/datetimerangepicker.tsx:33-40 | now with the seconds dropped |
| Clock.DefaultRangeOrdered | components/datetimecontext.tsx:16-30 | the default start is not after the default end, which is not after now |
| Clock.HyphenatedDiffersOnlyInTime | components/datepicker.tsx:51-54 | the hyphenated form equals the colon form except for the two time separators |
| Clock.PadBelowTen | components/datepicker.tsx:52 | `n < 10 ? 0n : n` is the two-digit padding |
| Clock.CivilFromDays | components/heatmap.tsx:64-75 | every day number has a valid calendar date whose day number is that day again |
| Clock.DaysFromCivilOrdered | components/heatmap.tsx:64-75 | day numbers follow the calendar order of valid dates (year, then month, then day) |
| Clock.DaysFromCivilInjective | components/heatmap.tsx:64-75 | distinct valid dates have distinct day numbers |
| Clock.DaysFromCivilInverse | components/heatmap.tsx:64-75 | a valid date taken to its day number and back is the same date, so dates and day numbers correspond one to one |
| Clock.BreakdownCompose | components/datetimerangepicker.tsx:26-40 | a valid wall-clock reading taken to its instant and broken down again is the same reading |
| Text.PadStart | components/datetimerangepicker.tsx:46 | `padStart` keeps the value and pads to the width |
| Text.JoinSplit | components/battery.tsx:56 | joining the parts of `split` gives the text back |
| Text.SplitOne | components/battery.tsx:56 | a text without the separator splits into itself alone |
| Text.ParseIntOfDigits | components/zones.tsx:152 | `parseInt` reads a leading run of decimal digits up to the first non-digit, except a lone `0` before `x`/`X`, which starts a hexadecimal number |
| Text.ParseIntOfHex | components/zones.tsx:169 | after white space and a sign, `0x`/`0X` and hexadecimal digits are read in base 16, negated after `-` |
| Text.ParseIntHexExample | components/zones.tsx:169 | `parseInt("0x1A")` is 26 |
| Text.ParseIntSkipsSpace | components/zones.tsx:169 | leading white space and line terminators of every kind JavaScript knows are skipped |
| Units.ToggleInvolution | components/elog.tsx:195-197 | toggling the unit twice restores it |
| RangePicker.Confirm | components/datetimerangepicker.tsx:67-86 | start ≤ end afterwards; a start after the end pushes the end to date + 1 h, an end before the start pulls the start to date − 1 h, otherwise the other bound is kept |
| RangePicker.ConfirmMovesOtherOnlyToReorder | components/datetimerangepicker.tsx:68-83 | the other bound moves only when the order would break |
| RangePicker.ConfirmIdempotent | components/datetimerangepicker.tsx:67-86 | confirming the same date twice equals confirming it once |
| RangePicker.ConfirmOrderedUnchanged | components/datetimerangepicker.tsx:67-86 | re-confirming a bound of an ordered range changes nothing |
| RangePicker.RangePickerView.constructor | components/datetimerangepicker.tsx:26-52 | the props or today's midnight and the current minute, closed, one report |
| RangePicker.RangePickerView.Open | components/datetimerangepicker.tsx:97 | opens the picker for one bound and changes nothing else |
| RangePicker.RangePickerView.ConfirmDate | components/datetimerangepicker.tsx:67-86 | the new bounds are `Confirm`, start ≤ end, the modal closes, the new pair is reported |
| RangePicker.RangePickerView.Cancel | components/datetimerangepicker.tsx:118 | closes the modal and keeps the range |
| DateCard.HyphenatedIsNotColonForm | components/datepicker.tsx:51-54 | the card's `HH-MM-SS` rendering does not parse as the colon form |
| DateCard.DateCardView.constructor | components/datepicker.tsx:26-61 | today's midnight to the current minute, closed, reported once iff a listener exists |
| DateCard.DateCardView.Open | components/datepicker.tsx:69-91 | opening a picker sets its mode and keeps the range and the reports |
| DateCard.DateCardView.ConfirmDate | components/datepicker.tsx:112-116 | only the picked bound changes, the mode resets, and the listener hears the new pair |
| DateCard.DateCardView.Cancel | components/datepicker.tsx:117 | closes the modal and keeps the range |
| AnComp.AnCompView.constructor | components/an-comp.tsx:40-58 | today's midnight to the current minute, one report on mount iff a listener exists |
| AnComp.AnCompView.Open | components/an-comp.tsx:66-88 | opening a picker sets its mode and keeps the range and the reports |
| AnComp.AnCompView.ConfirmDate | components/an-comp.tsx:110-127 | only the picked bound changes and the listener gets (date, old end) or (old start, date) |
| AnComp.AnCompView.Cancel | components/an-comp.tsx:128 | closes the modal and keeps the range |
| DateTimeContext.Initial | components/datetimecontext.tsx:16-30 | midnight of today and now without seconds, same day, start ≤ end |
| DateTimeContext.UseDateTime | components/datetimecontext.tsx:51-56 | the context when a provider exists, else the fixed error |
| Battery.FormatTimeRangeOf | components/battery.tsx:55-59 | `date time` inputs give `time1 - time2` |
| Battery.FormatTimeRangeWithoutTime | components/battery.tsx:55-59 | an input without a space prints `undefined` |
| Battery.FormatDateOf | components/battery.tsx:61-64 | `YYYY-MM-DD rest` becomes `DD-MM-YYYY` |
| Battery.FormatDateSwapsBack | components/battery.tsx:61-64 | the rewrite applied to its own output restores the date |
| Battery.PrevIndex | components/battery.tsx:70-72 | stays within the list and stands still exactly at index 0 |
| Battery.NextIndex | components/battery.tsx:74-76 | stays within the list and stands still exactly at the last index |
| Battery.PrevNextInverse | components/battery.tsx:70-76 | away from the ends, prev and next undo each other |
| Battery.BatteryCarousel.Prev | components/battery.tsx:111 | the index stays valid, so `batteries[index]` is defined; it stands still iff the button is disabled |
| Battery.BatteryCarousel.Next | components/battery.tsx:135 | the index stays valid; it stands still iff the button is disabled |
| Battery.BatteryCarousel.constructor | components/battery.tsx:67 | the carousel starts at the first battery |
| EVChargers.EveryStatusStyled | components/ev.tsx:28-40 | every charger's status has a style, and each style's label is its key |
| EVChargers.Back | components/ev.tsx:64 | `max(i − 1, 0)` |
| EVChargers.Forward | components/ev.tsx:116 | `min(i + 1, len − 1)` |
| EVChargers.BackForward | components/ev.tsx:64-117 | in-range indices stay in range, stand still only at the ends, and away from the ends back and forward undo each other |
| EVChargers.ChargerCarousel.GoBack | components/ev.tsx:64-65 | the index becomes `Back`, and it stands still iff the button is disabled |
| EVChargers.ChargerCarousel.GoForward | components/ev.tsx:116-117 | the index becomes `Forward`, and it stands still iff the button is disabled |
| EVChargers.ChargerCarousel.CurrentStyle | components/ev.tsx:38-40 | the shown style's label is the current charger's status |
| DieselGen.GetStatus | components/dieselgenerator.tsx:16-21 | N/A iff there is no timestamp; Running iff it parses and lies within 3 s either side of the clock value passed in |
| DieselGen.StatusOfFormatted | components/dieselgenerator.tsx:18-20 | for a well-formed timestamp the status is Running iff now − t lies in [−3, 3], symmetric in past and future |
| DieselGen.StatusColor | components/dieselgenerator.tsx:24-26 | green iff Running, else red |
| DieselGen.DgOf | components/dieselgenerator.tsx:53-54 | the reply's entry for 13 or 14, else the null record |
| DieselGen.PowerText | components/dieselgenerator.tsx:82 | `<kW> kW`, or N/A for a null output |
| DieselGen.MissingGeneratorShowsNA | components/dieselgenerator.tsx:53-54 | a missing generator shows N/A for status, output and last update |
| DieselGen.LastUpdated | components/dieselgenerator.tsx:86-93 | N/A without a timestamp, `Invalid date` for one that does not parse, otherwise a rendering that parses back to the same date-time |
| DieselGen.LastUpdatedOfFormatted | components/dieselgenerator.tsx:86-93 | a well-formed timestamp is shown exactly as it came |
| DieselGen.DieselGenView.constructor | components/dieselgenerator.tsx:11-13 | no data, loading, and the clock fixed to the mount time |
| DieselGen.DieselGenView.Card | components/dieselgenerator.tsx:53-92 | a box's status is Running iff its timestamp parses to within 3 s of the mount-time clock, green exactly then, with the output and last-update texts of its record |
| DieselGen.FrozenClockShowsOff | components/dieselgenerator.tsx:13-20 | the card's clock never moves, so any reading taken more than 3 s after mount shows Off in red |
| DieselGen.DieselGenView.FetchDetails | components/dieselgenerator.tsx:29-47 | no fetch without both datetimes; otherwise loading ends and a failed reply keeps the data |
| DgModal.BlockOf | components/dgdetailsmodal.tsx:59 | dgNo 13 reads DG1, anything else DG2 |
| DgModal.ToggleDG | components/dgdetailsmodal.tsx:116-119 | gives the other of 13 and 14 |
| DgModal.ToggleInvolution | components/dgdetailsmodal.tsx:116-119 | toggling twice restores dgNo and switches the block |
| DgModal.EnergyOf | components/dgdetailsmodal.tsx:61-65 | a missing `energyProduced` is 0, a present value is kept |
| DgModal.ModalStatus | components/dgdetailsmodal.tsx:78-85 | Running iff the timestamp is present and now − last ≤ 180 s (signed), else Off |
| DgModal.ModalStatusOfFormatted | components/dgdetailsmodal.tsx:78-85 | for a well-formed timestamp: Running iff it is at most 180 s in the past, or in the future |
| DgModal.CardAndModalDisagree | components/dgdetailsmodal.tsx:78-85 | the card judges against its mount time and the modal against a fresh clock: a reading more than 3 s after the card mounted and at most 180 s before the modal's clock is Off on the card and Running in the modal |
| DgModal.Bars | components/dgdetailsmodal.tsx:93-102 | one bar per `hrly_kwh_diff` entry, carrying its value and timestamp |
| DgModal.BarsRoundTrip | components/dgdetailsmodal.tsx:93-102 | the bars give back the entries they came from |
| DgModal.DgModalView.Apply | components/dgdetailsmodal.tsx:54-110 | without data nothing changes; otherwise each field gets its value or its default, and loading ends |
| DgModal.DgModalView.constructor | components/dgdetailsmodal.tsx:36-43 | loading, no readings, status Off and no bars |
| Readings.Window | backend/routes/lcons.js:17-19 | keeps exactly the readings of meters 1..11 inside the inclusive bounds |
| Readings.MaxOfFacts | backend/routes/lcons.js:14 | SQL MAX ignores NULLs: present iff some value is, and then the largest |
| Readings.MinOfFacts | backend/routes/lcons.js:14 | SQL MIN ignores NULLs: present iff some value is, and then the smallest |
| Readings.Spread | backend/routes/lcons.js:14 | MAX − MIN is never negative |
| Readings.SpreadFacts | backend/routes/lcons.js:14 | MAX − MIN bounds every pairwise difference |
| Readings.Round1 | backend/routes/lcons.js:14 | `ROUND(x, 1)` on hundredths: the nearest tenth, halves away from zero |
| Readings.Round1Monotone | backend/routes/lcons.js:14 | rounding is monotone |
| TotalConsumption.MeterGroup | backend/routes/lcons.js:20-21 | `GROUP BY energy_meter_id` keeps exactly that meter's rows |
| TotalConsumption.MeterDelta | backend/routes/lcons.js:11-21 | the rounded per-meter delta is never negative |
| TotalConsumption.MeterDeltaPresent | backend/routes/lcons.js:11-21 | a meter has a delta iff one of its rows carries the metric |
| TotalConsumption.Deltas | backend/routes/lcons.js:11-22 | one non-negative delta slot per meter 1..11 |
| TotalConsumption.SkippingIsOr0 | backend/routes/lcons.js:9 | SQL SUM skipping NULLs, followed by the `or 0` default, is the sum with NULL as 0 |
| TotalConsumption.ConsumptionIsSum | backend/routes/lcons.js:8-26 | the total is the sum of the window's per-meter deltas and is ≥ 0 |
| TotalConsumption.ConsumptionCoversMeter | backend/routes/lcons.js:9-14 | the total is at least each meter's delta |
| TotalConsumption.ConsumptionOfNothing | backend/routes/lcons.js:9-26 | no readings in the window give 0 |
| TotalConsumption.OutsideReadingIgnored | backend/routes/lcons.js:17-19 | a reading outside meters 1..11 or outside the bounds does not change the total |
| TotalConsumption.FieldName | backend/routes/lcons.js:58-60 | the kWh route answers `consumptionkWh`, the kVAh route `consumptionkVAh` |
| TotalConsumption.LConsumption | backend/routes/lcons.js:52-86 | 200 with the field and the total for a result, 500 with the fixed error otherwise |
| HourlyConsumption.HourOfIsStartOfHour | backend/routes/hcons.js:10 | the hour key is the timestamp truncated to the hour |
| HourlyConsumption.Hours | backend/routes/hcons.js:16-17 | the distinct hours, strictly ascending |
| HourlyConsumption.Group | backend/routes/hcons.js:16 | `GROUP BY meter, hour` keeps exactly that meter's rows in that hour |
| HourlyConsumption.QueryRows | backend/routes/hcons.js:9-17 | every row belongs to a (meter, hour) group of the window, and rows come in ascending hour order |
| HourlyConsumption.AccumulateHourly | backend/routes/hcons.js:23-27 | the in-place `reduce` builds the dictionary `RowsTotal` |
| HourlyConsumption.RowsTotalMeaning | backend/routes/hcons.js:23-27 | distinct keys, a key iff some row has that hour, and its value is that hour's sum with NULL as 0 |
| HourlyConsumption.RowsTotalAscending | backend/routes/hcons.js:23-27 | rows in ascending hour order give keys in ascending order |
| HourlyConsumption.HourlyKeys | backend/routes/hcons.js:9-27 | an hour is a key iff a kept reading falls in it |
| HourlyConsumption.HourlyValues | backend/routes/hcons.js:12-25 | each hour's value is the sum over meters 1..11 of their rounded deltas in that hour |
| HourlyConsumption.HourlyKeysAscending | backend/routes/hcons.js:17-27 | the result's keys ascend |
| HourlyRoute.UnsignedTenths | backend/routes/hcons.js:43 | `toFixed(1)` prints the tenths as digits, a dot and one digit |
| HourlyRoute.FormatTenths | backend/routes/hcons.js:43 | negative totals print with a leading minus |
| HourlyRoute.HourKeyInjective | backend/routes/hcons.js:10 | different hours give different key strings |
| HourlyRoute.RoundEntries | backend/routes/hcons.js:42-45 | each total is re-rounded to one decimal, with keys and order kept |
| HourlyRoute.JsonObject | backend/routes/hcons.js:42-47 | the JSON object has one key string per hour, and distinct hours give distinct keys |
| HourlyRoute.HConsumption | backend/routes/hcons.js:35-51 | 200 with the rounded hourly totals and distinct keys for a result, 500 with the fixed error otherwise |

## Left out

- Rendering is not modelled: JSX, styles, responsive sizes, animations and the scroll thumb.
- Network and database I/O are not modelled. Each axios/fetch reply and each MySQL row set is a parameter.
- The Express wiring is not modelled. `backend/routes/hcons.js:4` requires `''`, and `backend/server.js` never mounts the hourly route; the route is modelled as if its pool worked.
- Floating point is replaced by integers. `parseFloat`, `toFixed` and `Math.round` become exact decimal arithmetic on readings in hundredths and results in tenths. Peak-demand values and ticks are integers, and rounding counts exactly.
- Date libraries (moment-timezone, JS `Date`) are replaced by local integer seconds and an explicit calendar. Timezones, DST and locale display strings (`toLocaleDateString`) are not modelled.
- moment's lenient parsing is not modelled, nor the ISO `T` form of a timestamp. Reading a timestamp is the strict `YYYY-MM-DD HH:mm:ss` parser.
- `Clock`: four-digit years are used as written, and negative years print with a leading minus; JS and MySQL printing of years outside 0..9999 is not modelled.
- SQL columns of type DECIMAL come back as strings; the model receives them as numbers.
- `Object.entries` order is taken to be insertion order. Integer-like keys, which JavaScript moves to the front, do not occur among the hour strings.
- In the zones module, JavaScript falsy values are narrowed to the cases the code distinguishes: a missing or empty `meterId`, a missing or zero difference.
- Fetch races and timers are not modelled: overlapping requests on quick date changes, and the peak-demand tooltip auto-dismiss.
- The `isDownloading` guards, the workbook, the file system and sharing are not modelled. Only the rows handed to `aoa_to_sheet` are.
- HourlyEnergy.ExportSheet: it does not model the Date and Time cells, which come from `toISOString`/`toTimeString` in the device timezone; only the value column, the column names and the "No Data" case are stated.
- HourlyEnergy.Series: an invalid timestamp (NaN in the sort comparator) is not modelled; samples carry integer times.
- HourlyEnergy.SortByTime: `Array.prototype.sort` is modelled as a stable insertion sort, which is what the sorted, permutation and stability lemmas characterise.
- PeakDemand.YAxisLabels: `steps == 0` divides by zero in the source (NaN ticks); the model's `Tick` gives 0 there. The built-in sample data is not modelled.
- ELog.Consumed: `null` arithmetic in JavaScript (`null - 5`) is not modelled; a missing reading gives no value (None).
- The scroll-offset arithmetic (`Math.round` of page offsets) and the `maximumDate` restriction of the picker modal are not modelled.
- The heat map's fetch parameters are not modelled; its `endDate` is the window end plus one day.
- The `DATE(timestamp) AS day` column of the total-consumption subquery is not modelled. The subquery groups by meter only, so under MySQL's relaxed grouping that column is an arbitrary day of the group and the outer query never reads it.
- Files without logic to model are left out: the random demo data (`components/peakanalysis.tsx`, `components/zones-all.tsx`, `components/zones-select.tsx`), the stub credential check (`app/loginscreen.tsx`) and the presentation-only components.
