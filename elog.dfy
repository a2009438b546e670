/** The energy log (components/elog.tsx): the meter-to-zone table with its fallback,
    the zone label, the two export rows per zone, the consumed delta shown on each
    card, and the fetch effect with its default range. */
module ELog {
  import opened Text
  import opened Clock
  import opened Units

  datatype ZoneInfo = ZoneInfo(name: string, category: string)

  /** `meterToZoneMap`, entry `i` for meter `i + 1`. */
  const MeterToZoneMap: seq<ZoneInfo> := [
    ZoneInfo("PLATING", "C-49"),
    ZoneInfo("DIE CASTING + CHINA BUFFING + CNC", "C-50"),
    ZoneInfo("SCOTCH BUFFING", "C-50"),
    ZoneInfo("BUFFING", "C-49"),
    ZoneInfo("SPRAY+EPL-I", "C-50"),
    ZoneInfo("SPRAY+ EPL-II", "C-49"),
    ZoneInfo("RUMBLE", "C-50"),
    ZoneInfo("AIR COMPRESSOR", "C-49"),
    ZoneInfo("TERRACE", "C-49"),
    ZoneInfo("TOOL ROOM", "C-50"),
    ZoneInfo("ADMIN BLOCK", "C-50"),
    ZoneInfo("TRANSFORMER", ""),
    ZoneInfo("DIESEL GENERATOR - 1", ""),
    ZoneInfo("DIESEL GENERATOR - 2", "")]

  /** `meterToZoneMap[zone] || { name: `Zone ${zone}`, category: "" }`. */
  function ZoneMeta(zone: int): (z: ZoneInfo)
    ensures 1 <= zone <= 14 ==> z == MeterToZoneMap[zone - 1]
    ensures !(1 <= zone <= 14) ==> z == ZoneInfo("Zone " + IntToString(zone), "")
  {
    if 1 <= zone <= 14 then MeterToZoneMap[zone - 1] else ZoneInfo("Zone " + IntToString(zone), "")
  }

  /** `category ? `${name} (${category})` : name`. */
  function DisplayLabel(z: ZoneInfo): (s: string)
    ensures z.category == "" ==> s == z.name
    ensures z.category != "" ==> s == z.name + " (" + z.category + ")"
  {
    if z.category != "" then z.name + " (" + z.category + ")" else z.name
  }

  /** Only meters 1..11 carry a block in their label; the rest, known or not, show the bare name. */
  lemma {:induction false} LabelRule(zone: int)
    ensures (ZoneMeta(zone).category != "") <==> 1 <= zone <= 11
    ensures !(1 <= zone <= 11) ==> DisplayLabel(ZoneMeta(zone)) == ZoneMeta(zone).name
    ensures !(1 <= zone <= 14) ==> DisplayLabel(ZoneMeta(zone)) == "Zone " + IntToString(zone)
  {
    if 1 <= zone <= 11 {
      assert |MeterToZoneMap[zone - 1].category| == 4;
    }
  }

  // ---------------------------------------------------------------------------
  // The rows of the export.

  /** One end of a zone's range; any field may be missing (None). */
  datatype Snap = Snap(kVAh: Option<int>, kWh: Option<int>, timestamp: Option<string>)

  /** One element of `response.data.data`. */
  datatype ZoneLog = ZoneLog(zone: int, min: Option<Snap>, max: Option<Snap>)

  /** A cell handed to `aoa_to_sheet`. */
  datatype XCell = Str(s: string) | Num(n: int)

  /** `snap?.timestamp || "N/A"`. */
  function StampOr(s: Option<Snap>): string
  {
    if s.Some? && s.value.timestamp.Some? && s.value.timestamp.value != "" then s.value.timestamp.value else "N/A"
  }

  /** `snap?.kVAh ?? "N/A"` and `snap?.kWh ?? "N/A"`. */
  function ValueOr(s: Option<Snap>, u: Unit): XCell
  {
    var v := if s.None? then None else if u == KVAh then s.value.kVAh else s.value.kWh;
    if v.Some? then Num(v.value) else Str("N/A")
  }

  /** The row of a zone's first reading: the label, the start time, kVAh, kWh. */
  function StartRow(z: ZoneLog): seq<XCell>
  {
    [Str(DisplayLabel(ZoneMeta(z.zone))), Str("Start: " + StampOr(z.min)), ValueOr(z.min, KVAh), ValueOr(z.min, KWh)]
  }

  /** The row of a zone's last reading: an empty first cell, the end time, kVAh, kWh. */
  function EndRow(z: ZoneLog): seq<XCell>
  {
    [Str(""), Str("End: " + StampOr(z.max)), ValueOr(z.max, KVAh), ValueOr(z.max, KWh)]
  }

  /** The `zones.forEach(zone => { rows.push(...); rows.push(...) })` loop. */
  method ZoneRows(zones: seq<ZoneLog>) returns (rows: seq<seq<XCell>>)
    ensures |rows| == 2 * |zones|
    ensures forall k :: 0 <= k < |zones| ==> rows[2 * k] == StartRow(zones[k]) && rows[2 * k + 1] == EndRow(zones[k])
  {
    rows := [];
    for i := 0 to |zones|
      invariant |rows| == 2 * i
      invariant forall k :: 0 <= k < i ==> rows[2 * k] == StartRow(zones[k]) && rows[2 * k + 1] == EndRow(zones[k])
    {
      rows := rows + [StartRow(zones[i])];
      rows := rows + [EndRow(zones[i])];
    }
  }

  /** Every row has four cells; a missing value or time reads "N/A"; second rows start empty. */
  lemma {:induction false} RowsShape(z: ZoneLog)
    ensures |StartRow(z)| == 4 && |EndRow(z)| == 4 && EndRow(z)[0] == Str("")
    ensures z.min.None? ==> StartRow(z)[1..] == [Str("Start: N/A"), Str("N/A"), Str("N/A")]
    ensures z.max.None? ==> EndRow(z)[1..] == [Str("End: N/A"), Str("N/A"), Str("N/A")]
    ensures z.min.Some? && z.min.value.kVAh.Some? ==> StartRow(z)[2] == Num(z.min.value.kVAh.value)
    ensures z.max.Some? && z.max.value.kWh.Some? ==> EndRow(z)[3] == Num(z.max.value.kWh.value)
  {
    assert "Start: " + "N/A" == "Start: N/A";
    assert "End: " + "N/A" == "End: N/A";
  }

  datatype Export = NoData | Sheet(rows: seq<seq<XCell>>)

  /** `downloadExcel` up to `aoa_to_sheet`: "No Data" without zones, else the header,
      the column names and two rows per zone. */
  method ExportSheet(zones: seq<ZoneLog>, startDate: string, endDate: string) returns (e: Export)
    ensures e.NoData? <==> |zones| == 0
    ensures e.Sheet? ==> |e.rows| == 2 + 2 * |zones|
    ensures e.Sheet? ==> e.rows[0] == [Str("Start: " + startDate), Str("End: " + endDate), Str(""), Str(""), Str("")]
    ensures e.Sheet? ==> e.rows[1] == [Str("Zone"), Str("Timestamp"), Str("kVAh"), Str("kWh")]
    ensures e.Sheet? ==> forall k :: 0 <= k < |zones| ==>
      e.rows[2 + 2 * k] == StartRow(zones[k]) && e.rows[3 + 2 * k] == EndRow(zones[k])
  {
    if |zones| == 0 {
      return NoData;
    }
    var headerRow := [Str("Start: " + startDate), Str("End: " + endDate), Str(""), Str(""), Str("")];
    var columnHeaders := [Str("Zone"), Str("Timestamp"), Str("kVAh"), Str("kWh")];
    var rows := ZoneRows(zones);
    e := Sheet([headerRow, columnHeaders] + rows);
  }

  // ---------------------------------------------------------------------------
  // The card and the component.

  /** `zone.max[unit] - zone.min[unit]`, when both readings carry the unit. */
  function Consumed(z: ZoneLog, u: Unit): (c: Option<int>)
    ensures c.Some? <==> ValueOr(z.min, u).Num? && ValueOr(z.max, u).Num?
    ensures c.Some? ==> ValueOr(z.min, u).n + c.value == ValueOr(z.max, u).n
  {
    var a, b := ValueOr(z.min, u), ValueOr(z.max, u);
    if a.Num? && b.Num? then Some(b.n - a.n) else None
  }

  /** The card's zone name and subheading share the export's table and fallback. */
  function CardHeading(z: ZoneLog): (h: (string, string))
    ensures h.0 == ZoneMeta(z.zone).name && h.1 == ZoneMeta(z.zone).category
  {
    (ZoneMeta(z.zone).name, ZoneMeta(z.zone).category)
  }

  /** `moment(t).format('YYYY-MM-DD 00:00')` of the day numbered `day`. */
  function Midnight(day: int): string
  {
    IsoDate(CivilFromDays(day)) + " 00:00"
  }

  /** The requested range: each side defaults when its prop is empty, to yesterday's and today's midnight. */
  function EffectiveRange(startDate: string, endDate: string, now: int): (r: (string, string))
    ensures r.0 == (if startDate != "" then startDate else Midnight(DayOf(now) - 1))
    ensures r.1 == (if endDate != "" then endDate else Midnight(DayOf(now)))
  {
    (if startDate != "" then startDate else Midnight(DayOf(now) - 1),
     if endDate != "" then endDate else Midnight(DayOf(now)))
  }

  /** The two defaults are different days, the start one day before the end. */
  lemma {:induction false} DefaultRangeDistinct(now: int)
    ensures EffectiveRange("", "", now).0 != EffectiveRange("", "", now).1
  {
    var a, b := CivilFromDays(DayOf(now) - 1), CivilFromDays(DayOf(now));
    IsoDateInjective(a, b);
    CivilFromDaysInjective(DayOf(now) - 1, DayOf(now));
    var s, t := Midnight(DayOf(now) - 1), Midnight(DayOf(now));
    assert s[..|s| - 6] == IsoDate(a);
    assert t[..|t| - 6] == IsoDate(b);
  }

  class ELogView {
    var selectedUnit: Unit
    var zones: seq<ZoneLog>

    constructor ()
      ensures selectedUnit == KVAh && zones == []
    {
      selectedUnit := KVAh;
      zones := [];
    }

    method ToggleSwitch()
      modifies this
      ensures selectedUnit == Toggle(old(selectedUnit)) && zones == old(zones)
    {
      selectedUnit := Toggle(selectedUnit);
    }

    /** The fetch effect: the range it asks for, and the new zones. A failed request (or one
        without `data`) keeps the old zones; a missing `data.data` reads as `[]`. */
    method FetchData(startDate: string, endDate: string, now: int, response: Option<Option<seq<ZoneLog>>>)
      returns (range: (string, string))
      modifies this
      ensures range == EffectiveRange(startDate, endDate, now)
      ensures response.None? ==> zones == old(zones)
      ensures response.Some? ==> zones == (if response.value.Some? then response.value.value else [])
      ensures selectedUnit == old(selectedUnit)
    {
      range := EffectiveRange(startDate, endDate, now);
      match response
      case None =>
      case Some(payload) =>
        zones := if payload.Some? then payload.value else [];
    }
  }
}
