/** The zone chart (components/zones.tsx): which endpoint is asked, the group-by
    of the returned items by meter, the per-zone series in metadata order, and the
    chart matrices (24 hours x 12 zones, or 24 singleton rows for one zone), each
    cell found through the hour parsed out of the item's `YYYY-MM-DD HH:...` text. */
module Zones {
  import opened Text
  import opened Clock
  import opened Dict
  import opened Units

  datatype View = All | Single

  /** The endpoint chosen from the view and the unit. */
  function Endpoint(v: View, u: Unit): string
  {
    match (v, u)
    case (All, KWh) => "zkWhAZconsumption"
    case (All, KVAh) => "zkVAhAZconsumption"
    case (Single, KWh) => "zconsumption"
    case (Single, KVAh) => "zkVAhconsumption"
  }

  /** The four endpoints are different, so the request names the view and the unit. */
  lemma {:induction false} EndpointInjective(v1: View, u1: Unit, v2: View, u2: Unit)
    ensures Endpoint(v1, u1) == Endpoint(v2, u2) ==> v1 == v2 && u1 == u2
  {
  }

  /** The GET request; axios leaves out a parameter whose value is undefined. */
  datatype Request = Request(endpoint: string, startDateTime: string, endDateTime: string, zone: Option<string>)

  function RequestFor(v: View, u: Unit, startDate: string, endDate: string, selectedZone: Option<string>): (r: Request)
    ensures r.endpoint == Endpoint(v, u) && r.startDateTime == startDate && r.endDateTime == endDate
    ensures v == All ==> r.zone.None?
    ensures v == Single ==> r.zone == selectedZone
  {
    Request(Endpoint(v, u), startDate, endDate, if v == Single then selectedZone else None)
  }

  // ---------------------------------------------------------------------------
  // Hours.

  /** `parseInt(item.hour.split(' ')[1]?.split(':')[0])`; NaN (None) when there is no second word. */
  function ParseHour(hour: string): Option<int>
  {
    match Part(hour, ' ', 1)
    case None => None
    case Some(t) => ParseInt(Split(t, ':')[0])
  }

  lemma {:induction false} DigitsHaveNoSeparator(s: string)
    requires AllDigits(s)
    ensures ' ' !in s && ':' !in s
  {
    forall i | 0 <= i < |s| ensures s[i] != ' ' && s[i] != ':' {
      assert IsDigit(s[i]);
    }
  }

  /** A second word that starts with digits and a colon gives those digits' value. */
  lemma {:induction false} ParseHourOfParts(date: string, hh: string, rest: string)
    requires ' ' !in date && ' ' !in rest && |hh| > 0 && AllDigits(hh)
    ensures ParseHour(date + [' '] + (hh + [':'] + rest)) == Some(DigitsValue(hh))
  {
    DigitsHaveNoSeparator(hh);
    var tail := hh + [':'] + rest;
    assert ' ' !in tail by {
      assert forall c :: c in tail ==> c in hh || c == ':' || c in rest;
    }
    SplitTwo(date, tail, ' ');
    assert Part(date + [' '] + tail, ' ', 1) == Some(tail);
    SplitHead(hh, rest, ':');
    assert Split(tail, ':')[0] == hh;
    assert hh + "" == hh;
    ParseIntOfDigits(hh, "");
    assert ParseInt(hh) == Some(DigitsValue(hh) as int);
  }

  lemma {:induction false} IntToStringHasNoSpace(i: int)
    ensures ' ' !in IntToString(i)
  {
    var d := NatToString(if i < 0 then -i else i);
    DigitsHaveNoSeparator(d);
    assert IntToString(i) == if i < 0 then "-" + d else d;
  }

  /** Regrouping `ys` and the tail `-mo-dd hh:mm:ss` around the space and the first colon. */
  lemma {:induction false} Regroup(ys: string, mo: string, dd: string, hh: string, mm: string, ss: string)
    ensures ys + ("-" + mo + "-" + dd + " " + hh + ":" + mm + ":" + ss)
      == (ys + "-" + mo + "-" + dd) + [' '] + (hh + [':'] + (mm + [':'] + ss))
  {
    var x := "-" + mo + "-" + dd;
    var after := hh + [':'] + (mm + [':'] + ss);
    assert x + " " + hh + ":" + mm + ":" + ss == x + [' '] + after;
    assert ys + (x + [' '] + after) == (ys + x) + [' '] + after;
  }

  /** A formatted timestamp is its date, a space, the two-digit hour, a colon and the rest. */
  lemma {:induction false} FormattedWords(dt: DateTime)
    ensures FormatDateTime(dt) == (IntToString(dt.year) + "-" + Pad2(dt.month) + "-" + Pad2(dt.day)) + [' ']
      + (Pad2(dt.hour) + [':'] + (Pad2(dt.minute) + [':'] + Pad2(dt.second)))
  {
    Regroup(IntToString(dt.year), Pad2(dt.month), Pad2(dt.day), Pad2(dt.hour), Pad2(dt.minute), Pad2(dt.second));
  }

  lemma {:induction false} DateWordHasNoSpace(dt: DateTime)
    requires ValidDateTime(dt)
    ensures ' ' !in IntToString(dt.year) + "-" + Pad2(dt.month) + "-" + Pad2(dt.day)
  {
    IntToStringHasNoSpace(dt.year);
    DigitsHaveNoSeparator(Pad2(dt.month));
    DigitsHaveNoSeparator(Pad2(dt.day));
  }

  /** The hour of a `YYYY-MM-DD HH:mm:ss` timestamp is read back exactly. */
  lemma {:induction false} ParseHourOfFormatted(dt: DateTime)
    requires ValidDateTime(dt)
    ensures ParseHour(FormatDateTime(dt)) == Some(dt.hour)
  {
    var date := IntToString(dt.year) + "-" + Pad2(dt.month) + "-" + Pad2(dt.day);
    var hh, mm, ss := Pad2(dt.hour), Pad2(dt.minute), Pad2(dt.second);
    FormattedWords(dt);
    DateWordHasNoSpace(dt);
    DigitsHaveNoSeparator(mm);
    DigitsHaveNoSeparator(ss);
    assert ' ' !in mm + [':'] + ss;
    ParseHourOfParts(date, hh, mm + [':'] + ss);
  }

  /** `hourlyLabels`: `00` .. `23`. */
  function HourlyLabels(): (ls: seq<string>)
    ensures |ls| == 24
    ensures forall i :: 0 <= i < 24 ==> |ls[i]| == 2 && AllDigits(ls[i]) && DigitsValue(ls[i]) == i
  {
    seq(24, i requires 0 <= i < 24 => Pad2(i))
  }

  // ---------------------------------------------------------------------------
  // The group-by.

  /** One element of `consumptionData`. */
  datatype Item = Item(meterId: int, hour: string, kWhDiff: Option<int>, kVAhDiff: Option<int>)

  /** The items of one meter, in input order. */
  function GroupOf(data: seq<Item>, k: int): seq<Item>
  {
    if |data| == 0 then []
    else
      var last := data[|data| - 1];
      GroupOf(data[..|data| - 1], k) + (if last.meterId == k then [last] else [])
  }

  /** A meter's group holds exactly the items of that meter. */
  lemma {:induction false} GroupOfMembers(data: seq<Item>, k: int)
    ensures forall x :: x in GroupOf(data, k) <==> x in data && x.meterId == k
  {
    if |data| > 0 {
      var front, last := data[..|data| - 1], data[|data| - 1];
      GroupOfMembers(front, k);
      assert data == front + [last];
    }
  }

  function OrEmpty(g: Option<seq<Item>>): seq<Item>
  {
    if g.Some? then g.value else []
  }

  /** The object the `reduce` builds: `acc[id] ||= []; acc[id].push(item)` for each item in turn. */
  function Grouped(data: seq<Item>): seq<Entry<int, seq<Item>>>
  {
    if |data| == 0 then []
    else
      var acc := Grouped(data[..|data| - 1]);
      var x := data[|data| - 1];
      Put(acc, x.meterId, OrEmpty(Get(acc, x.meterId)) + [x])
  }

  /** The `reduce` itself. */
  method GroupBy(data: seq<Item>) returns (acc: seq<Entry<int, seq<Item>>>)
    ensures acc == Grouped(data)
  {
    acc := [];
    var i := 0;
    while i < |data|
      invariant 0 <= i <= |data|
      invariant acc == Grouped(data[..i])
    {
      var item := data[i];
      var zoneId := item.meterId;
      ghost var before := acc;
      if Get(acc, zoneId).None? {
        acc := Put(acc, zoneId, []);
        PutGet(before, zoneId, [], zoneId);
        PutPutSame(before, zoneId, [], [item]);
        assert OrEmpty(Get(acc, zoneId)) + [item] == [item] == OrEmpty(Get(before, zoneId)) + [item];
      }
      acc := Put(acc, zoneId, OrEmpty(Get(acc, zoneId)) + [item]);
      assert acc == Put(before, zoneId, OrEmpty(Get(before, zoneId)) + [item]);
      assert data[..i + 1][..i] == data[..i];
      i := i + 1;
    }
    assert data[..i] == data;
  }

  /** Two assignments to the same key leave the second value in the first's place. */
  lemma {:induction false} PutPutSame<K, V>(d: seq<Entry<K, V>>, k: K, v: V, w: V)
    ensures Put(Put(d, k, v), k, w) == Put(d, k, w)
  {
    if |d| > 0 && d[0].key != k {
      PutPutSame(d[1..], k, v, w);
      assert Put(d, k, v)[1..] == Put(d[1..], k, v);
    }
  }

  lemma {:induction false} GroupOfAbsent(data: seq<Item>, k: int)
    requires forall i :: 0 <= i < |data| ==> data[i].meterId != k
    ensures GroupOf(data, k) == []
  {
    if |data| > 0 {
      GroupOfAbsent(data[..|data| - 1], k);
    }
  }

  /** Every item lands in exactly the group of its meter, groups keep input order, and no key repeats. */
  lemma {:induction false} GroupedMeaning(data: seq<Item>)
    ensures DistinctKeys(Grouped(data))
    ensures forall k :: Get(Grouped(data), k).Some? <==> exists i :: 0 <= i < |data| && data[i].meterId == k
    ensures forall k :: Get(Grouped(data), k).Some? ==> Get(Grouped(data), k).value == GroupOf(data, k)
  {
    if |data| > 0 {
      var n := |data|;
      var front, x := data[..n - 1], data[n - 1];
      GroupedMeaning(front);
      var acc := Grouped(front);
      var v := OrEmpty(Get(acc, x.meterId)) + [x];
      PutKeepsKeysDistinct(acc, x.meterId, v);
      forall k ensures Get(Grouped(data), k) == if k == x.meterId then Some(v) else Get(acc, k) {
        PutGet(acc, x.meterId, v, k);
      }
      if Get(acc, x.meterId).None? {
        GroupOfAbsent(front, x.meterId);
      }
      forall i | 0 <= i < n - 1 ensures data[i] == front[i] { }
    }
  }

  // ---------------------------------------------------------------------------
  // The formatted series.

  datatype Zone = Zone(id: int, name: string, category: string)

  /** `zoneMetadata`. */
  const ZoneMetadata: seq<Zone> := [
    Zone(1, "PLATING", "C-49"),
    Zone(2, "DC+ CB + CNC", "C-50"),
    Zone(3, "SCOTCH BUFFING", "C-50"),
    Zone(4, "BUFFING", "C-49"),
    Zone(5, "SPRAY+EPL-I", "C-50"),
    Zone(6, "SPRAY+ EPL-II", "C-49"),
    Zone(7, "RUMBLE", "C-50"),
    Zone(8, "AIR COMPRESSOR", "C-49"),
    Zone(9, "TERRACE", "C-49"),
    Zone(10, "TOOL ROOM", "C-50"),
    Zone(11, "ADMIN BLOCK", "C-50"),
    Zone(12, "TRANSFORMER", "")]

  lemma {:induction false} MetadataIds()
    ensures |ZoneMetadata| == 12
    ensures forall i :: 0 <= i < 12 ==> ZoneMetadata[i].id == i + 1
  {
  }

  datatype Point = Point(hour: string, value: int)
  datatype ZoneData = ZoneData(zoneId: int, zoneName: string, category: string, data: seq<Point>)

  /** `selectedUnit === 'kWh' ? item.kWh_difference || 0 : item.kVAh_difference || 0`. */
  function ValueFor(x: Item, u: Unit): int
  {
    var d := if u == KWh then x.kWhDiff else x.kVAhDiff;
    if d.Some? then d.value else 0
  }

  /** `zData.map(item => ({hour, value}))`. */
  function Parse(items: seq<Item>, u: Unit): (ps: seq<Point>)
    ensures |ps| == |items|
    ensures forall i :: 0 <= i < |items| ==> ps[i] == Point(items[i].hour, ValueFor(items[i], u))
  {
    seq(|items|, i requires 0 <= i < |items| => Point(items[i].hour, ValueFor(items[i], u)))
  }

  predicate IdsIncreasing(meta: seq<Zone>)
  {
    forall i, j :: 0 <= i < j < |meta| ==> meta[i].id < meta[j].id
  }

  /** `formattedData`: the metadata zones that have a group, in metadata order, with the group's series. */
  function Format(meta: seq<Zone>, grouped: seq<Entry<int, seq<Item>>>, u: Unit): (r: seq<ZoneData>)
    ensures |r| <= |meta|
  {
    if |meta| == 0 then []
    else
      var rest := Format(meta[1..], grouped, u);
      var g := Get(grouped, meta[0].id);
      if g.Some? then
        [ZoneData(meta[0].id, meta[0].name, meta[0].category, Parse(g.value, u))] + rest
      else rest
  }

  /** Every formatted zone is a metadata zone that has a group, carrying that group's series. */
  lemma {:induction false} FormatSound(meta: seq<Zone>, grouped: seq<Entry<int, seq<Item>>>, u: Unit)
    ensures forall z :: z in Format(meta, grouped, u) ==>
      Get(grouped, z.zoneId).Some? && z.data == Parse(Get(grouped, z.zoneId).value, u)
    ensures forall z :: z in Format(meta, grouped, u) ==> Zone(z.zoneId, z.zoneName, z.category) in meta
  {
    if |meta| > 0 {
      FormatSound(meta[1..], grouped, u);
      assert forall m :: m in meta[1..] ==> m in meta;
    }
  }

  /** Every metadata zone that has a group is formatted. */
  lemma {:induction false} FormatComplete(meta: seq<Zone>, grouped: seq<Entry<int, seq<Item>>>, u: Unit)
    ensures forall m :: m in meta && Get(grouped, m.id).Some? ==> exists z :: z in Format(meta, grouped, u) && z.zoneId == m.id
  {
    if |meta| > 0 {
      FormatComplete(meta[1..], grouped, u);
      assert forall m :: m in meta ==> m == meta[0] || m in meta[1..];
      var r, rest := Format(meta, grouped, u), Format(meta[1..], grouped, u);
      assert forall z :: z in rest ==> z in r;
      if Get(grouped, meta[0].id).Some? {
        assert r[0] in r && r[0].zoneId == meta[0].id;
      }
    }
  }

  predicate ZoneIdsIncreasing(zs: seq<ZoneData>)
  {
    forall i, j :: 0 <= i < j < |zs| ==> zs[i].zoneId < zs[j].zoneId
  }

  lemma {:induction false} ConsIncreasing(head: ZoneData, rest: seq<ZoneData>)
    requires ZoneIdsIncreasing(rest) && forall z :: z in rest ==> head.zoneId < z.zoneId
    ensures ZoneIdsIncreasing([head] + rest)
  {
    var r := [head] + rest;
    forall i, j | 0 <= i < j < |r| ensures r[i].zoneId < r[j].zoneId {
      assert r[j] == rest[j - 1] && rest[j - 1] in rest;
      if i > 0 {
        assert r[i] == rest[i - 1];
      }
    }
  }

  /** Formatted zones come in metadata order. */
  lemma {:induction false} FormatOrdered(meta: seq<Zone>, grouped: seq<Entry<int, seq<Item>>>, u: Unit)
    requires IdsIncreasing(meta)
    ensures ZoneIdsIncreasing(Format(meta, grouped, u))
  {
    if |meta| > 0 {
      assert forall i :: 1 <= i < |meta| ==> meta[i] == meta[1..][i - 1];
      FormatOrdered(meta[1..], grouped, u);
      FormatSound(meta[1..], grouped, u);
      var rest := Format(meta[1..], grouped, u);
      forall z | z in rest ensures meta[0].id < z.zoneId {
        var i :| 0 <= i < |meta[1..]| && meta[1..][i] == Zone(z.zoneId, z.zoneName, z.category);
      }
      var g := Get(grouped, meta[0].id);
      if g.Some? {
        ConsIncreasing(ZoneData(meta[0].id, meta[0].name, meta[0].category, Parse(g.value, u)), rest);
      }
    }
  }

  // ---------------------------------------------------------------------------
  // The chart.

  /** `zoneData.find(item => item.zoneId === id)`. */
  function FindZone(zs: seq<ZoneData>, id: int): (r: Option<ZoneData>)
    ensures r.Some? <==> exists z :: z in zs && z.zoneId == id
    ensures r.Some? ==> r.value in zs && r.value.zoneId == id
  {
    if |zs| == 0 then None
    else if zs[0].zoneId == id then Some(zs[0])
    else
      assert forall z :: z in zs <==> z == zs[0] || z in zs[1..];
      FindZone(zs[1..], id)
  }

  /** `data.find(item => parseInt(hourStr) === h)`. */
  function FindPoint(ps: seq<Point>, h: int): Option<Point>
  {
    if |ps| == 0 then None
    else if ParseHour(ps[0].hour) == Some(h) then Some(ps[0])
    else FindPoint(ps[1..], h)
  }

  /** `hourData?.value || 0` for zone `id` at hour `h`. */
  function CellValue(zs: seq<ZoneData>, id: int, h: int): int
  {
    var z := FindZone(zs, id);
    if z.None? then 0
    else
      var p := FindPoint(z.value.data, h);
      if p.Some? then p.value.value else 0
  }

  /** The all-zones matrix: one row per hour, one column per metadata zone. */
  function ChartAll(zs: seq<ZoneData>): (m: seq<seq<int>>)
    ensures |m| == 24 && forall h :: 0 <= h < 24 ==> |m[h]| == |ZoneMetadata|
    ensures forall h, c :: 0 <= h < 24 && 0 <= c < |ZoneMetadata| ==> m[h][c] == CellValue(zs, ZoneMetadata[c].id, h)
  {
    seq(24, h requires 0 <= h < 24 => seq(|ZoneMetadata|, c requires 0 <= c < |ZoneMetadata| => CellValue(zs, ZoneMetadata[c].id, h)))
  }

  /** The single-zone chart: 24 rows of one value each, for the zone `parseInt(selectedZone)`. */
  function ChartSingle(zs: seq<ZoneData>, selectedZone: Option<string>): (m: seq<seq<int>>)
    ensures |m| == 24 && forall h :: 0 <= h < 24 ==> |m[h]| == 1
    ensures forall h :: 0 <= h < 24 ==>
      m[h][0] == (var id := if selectedZone.Some? then ParseInt(selectedZone.value) else None;
                  if id.Some? then CellValue(zs, id.value, h) else 0)
  {
    var id := if selectedZone.Some? then ParseInt(selectedZone.value) else None;
    seq(24, h requires 0 <= h < 24 => [if id.Some? then CellValue(zs, id.value, h) else 0])
  }

  /** The single chart's legend: `zoneDataItem?.zoneName || ''`. */
  function SingleLegend(zs: seq<ZoneData>, selectedZone: Option<string>): (s: string)
    ensures var id := if selectedZone.Some? then ParseInt(selectedZone.value) else None;
      id.None? ==> s == ""
    ensures var id := if selectedZone.Some? then ParseInt(selectedZone.value) else None;
      s != "" ==> id.Some? && exists z :: z in zs && z.zoneId == id.value && z.zoneName == s
    ensures var id := if selectedZone.Some? then ParseInt(selectedZone.value) else None;
      id.Some? && (forall z :: z in zs ==> z.zoneId != id.value) ==> s == ""
    ensures var id := if selectedZone.Some? then ParseInt(selectedZone.value) else None;
      id.Some? && |zs| > 0 && zs[0].zoneId == id.value ==> s == zs[0].zoneName
  {
    var id := if selectedZone.Some? then ParseInt(selectedZone.value) else None;
    if id.None? then "" else
      var z := FindZone(zs, id.value);
      if z.Some? then z.value.zoneName else ""
  }

  // ---------------------------------------------------------------------------
  // A cell traced back to the raw items.

  predicate Matches(x: Item, id: int, h: int)
  {
    x.meterId == id && ParseHour(x.hour) == Some(h)
  }

  /** The first raw item of meter `id` whose hour parses to `h`. */
  function FirstMatch(data: seq<Item>, id: int, h: int): Option<Item>
  {
    if |data| == 0 then None
    else if Matches(data[0], id, h) then Some(data[0])
    else FirstMatch(data[1..], id, h)
  }

  /** The first match is a matching item, and none means no item matches. */
  lemma {:induction false} FirstMatchMeaning(data: seq<Item>, id: int, h: int)
    ensures FirstMatch(data, id, h).Some? ==> FirstMatch(data, id, h).value in data && Matches(FirstMatch(data, id, h).value, id, h)
    ensures FirstMatch(data, id, h).None? ==> forall x :: x in data ==> !Matches(x, id, h)
  {
    if |data| > 0 {
      FirstMatchMeaning(data[1..], id, h);
      assert forall x :: x in data ==> x == data[0] || x in data[1..];
    }
  }

  lemma {:induction false} FirstMatchAppend(xs: seq<Item>, x: Item, id: int, h: int)
    ensures FirstMatch(xs + [x], id, h) == if FirstMatch(xs, id, h).Some? then FirstMatch(xs, id, h)
      else if Matches(x, id, h) then Some(x) else None
  {
    if |xs| > 0 {
      assert (xs + [x])[1..] == xs[1..] + [x];
      FirstMatchAppend(xs[1..], x, id, h);
    } else {
      assert [x][1..] == [];
    }
  }

  /** Picking meter `id`'s group first does not change which item comes first. */
  lemma {:induction false} FirstMatchOfGroup(data: seq<Item>, id: int, h: int)
    ensures FirstMatch(GroupOf(data, id), id, h) == FirstMatch(data, id, h)
  {
    if |data| > 0 {
      var front, x := data[..|data| - 1], data[|data| - 1];
      FirstMatchOfGroup(front, id, h);
      assert data == front + [x];
      FirstMatchAppend(front, x, id, h);
      if x.meterId == id {
        assert GroupOf(data, id) == GroupOf(front, id) + [x];
        FirstMatchAppend(GroupOf(front, id), x, id, h);
      } else {
        assert GroupOf(data, id) == GroupOf(front, id);
        assert !Matches(x, id, h);
      }
    }
  }

  /** On a meter's series, the first point at hour `h` is the first such item, valued in the unit. */
  lemma {:induction false} FindPointOfParse(items: seq<Item>, id: int, h: int, u: Unit)
    requires forall x :: x in items ==> x.meterId == id
    ensures FindPoint(Parse(items, u), h).Some? == FirstMatch(items, id, h).Some?
    ensures FindPoint(Parse(items, u), h).Some? ==>
      FindPoint(Parse(items, u), h).value.value == ValueFor(FirstMatch(items, id, h).value, u)
  {
    if |items| > 0 {
      assert Parse(items, u)[1..] == Parse(items[1..], u);
      assert forall x :: x in items[1..] ==> x in items;
      FindPointOfParse(items[1..], id, h, u);
    }
  }

  /** The first raw item of meter `id` at hour `h`, valued in the unit, or 0. */
  function FirstValue(data: seq<Item>, id: int, h: int, u: Unit): int
  {
    var x := FirstMatch(data, id, h);
    if x.Some? then ValueFor(x.value, u) else 0
  }

  /** Through the group-by and the formatting, the cell of a metadata zone is the value of
      the first raw item of that meter whose hour parses to the row, or 0. */
  lemma {:induction false} CellOfData(data: seq<Item>, u: Unit, c: nat, h: int)
    requires c < |ZoneMetadata|
    ensures CellValue(Format(ZoneMetadata, Grouped(data), u), ZoneMetadata[c].id, h) == FirstValue(data, ZoneMetadata[c].id, h, u)
  {
    if Get(Grouped(data), ZoneMetadata[c].id).Some? {
      CellOfGroupedMeter(data, u, c, h);
    } else {
      CellOfMissingMeter(data, u, c, h);
    }
  }

  lemma {:induction false} CellOfGroupedMeter(data: seq<Item>, u: Unit, c: nat, h: int)
    requires c < |ZoneMetadata| && Get(Grouped(data), ZoneMetadata[c].id).Some?
    ensures CellValue(Format(ZoneMetadata, Grouped(data), u), ZoneMetadata[c].id, h) == FirstValue(data, ZoneMetadata[c].id, h, u)
  {
    var id := ZoneMetadata[c].id;
    var grouped := Grouped(data);
    var zs := Format(ZoneMetadata, grouped, u);
    GroupedMeaning(data);
    FormatSound(ZoneMetadata, grouped, u);
    FormatComplete(ZoneMetadata, grouped, u);
    assert ZoneMetadata[c] in ZoneMetadata;
    var z := FindZone(zs, id);
    assert z.Some?;
    assert z.value.data == Parse(GroupOf(data, id), u);
    GroupOfMembers(data, id);
    FindPointOfParse(GroupOf(data, id), id, h, u);
    FirstMatchOfGroup(data, id, h);
  }

  lemma {:induction false} CellOfMissingMeter(data: seq<Item>, u: Unit, c: nat, h: int)
    requires c < |ZoneMetadata| && Get(Grouped(data), ZoneMetadata[c].id).None?
    ensures CellValue(Format(ZoneMetadata, Grouped(data), u), ZoneMetadata[c].id, h) == FirstValue(data, ZoneMetadata[c].id, h, u)
  {
    var id := ZoneMetadata[c].id;
    var grouped := Grouped(data);
    var zs := Format(ZoneMetadata, grouped, u);
    FormatSound(ZoneMetadata, grouped, u);
    assert FindZone(zs, id).None?;
    GroupedMeaning(data);
    FirstMatchMeaning(data, id, h);
    forall x | x in data ensures x.meterId != id {
      var i :| 0 <= i < |data| && data[i] == x;
    }
  }

  /** The all-zones chart of a response, cell by cell. */
  lemma {:induction false} ChartAllOfData(data: seq<Item>, u: Unit)
    ensures var m := ChartAll(Format(ZoneMetadata, Grouped(data), u));
      forall h, c :: 0 <= h < 24 && 0 <= c < 12 ==> m[h][c] == FirstValue(data, c + 1, h, u)
  {
    var m := ChartAll(Format(ZoneMetadata, Grouped(data), u));
    forall h, c | 0 <= h < 24 && 0 <= c < 12 ensures m[h][c] == FirstValue(data, c + 1, h, u) {
      ChartAllCell(data, u, h, c);
    }
  }

  lemma {:induction false} ChartAllCell(data: seq<Item>, u: Unit, h: int, c: int)
    requires 0 <= h < 24 && 0 <= c < 12
    ensures ChartAll(Format(ZoneMetadata, Grouped(data), u))[h][c] == FirstValue(data, c + 1, h, u)
  {
    var zs := Format(ZoneMetadata, Grouped(data), u);
    MetadataIds();
    assert ZoneMetadata[c].id == c + 1;
    assert ChartAll(zs)[h][c] == CellValue(zs, ZoneMetadata[c].id, h);
    CellOfData(data, u, c, h);
  }

  /** The single-zone chart of a response: for a selected meter 1..12, the same first-item rule. */
  lemma {:induction false} ChartSingleOfData(data: seq<Item>, u: Unit, selectedZone: string, id: int)
    requires ParseInt(selectedZone) == Some(id) && 1 <= id <= 12
    ensures var m := ChartSingle(Format(ZoneMetadata, Grouped(data), u), Some(selectedZone));
      forall h :: 0 <= h < 24 ==> m[h] == [FirstValue(data, id, h, u)]
  {
    var m := ChartSingle(Format(ZoneMetadata, Grouped(data), u), Some(selectedZone));
    forall h | 0 <= h < 24 ensures m[h] == [FirstValue(data, id, h, u)] {
      ChartSingleCell(data, u, selectedZone, id, h);
    }
  }

  lemma {:induction false} ChartSingleCell(data: seq<Item>, u: Unit, selectedZone: string, id: int, h: int)
    requires ParseInt(selectedZone) == Some(id) && 1 <= id <= 12 && 0 <= h < 24
    ensures ChartSingle(Format(ZoneMetadata, Grouped(data), u), Some(selectedZone))[h] == [FirstValue(data, id, h, u)]
  {
    var zs := Format(ZoneMetadata, Grouped(data), u);
    var row := ChartSingle(zs, Some(selectedZone))[h];
    MetadataIds();
    assert ZoneMetadata[id - 1].id == id;
    assert |row| == 1 && row[0] == CellValue(zs, id, h);
    CellOfData(data, u, id - 1, h);
  }

  // ---------------------------------------------------------------------------
  // The component.

  /** The `meterId` prop: absent, one string, or an array of strings. */
  datatype MeterParam = Absent | One(s: string) | Many(ss: seq<string>)

  class ZonesView {
    var selectedUnit: Unit
    var selectedView: View
    var selectedZone: Option<string>
    var zoneData: seq<ZoneData>

    constructor ()
      ensures selectedUnit == KVAh && selectedView == All && selectedZone == Some("1") && zoneData == []
    {
      selectedUnit := KVAh;
      selectedView := All;
      selectedZone := Some("1");
      zoneData := [];
    }

    /** The `meterId` effect: a truthy prop selects that zone (an array its first element,
        undefined when the array is empty); otherwise the view returns to all zones. */
    method OnMeterId(meterId: MeterParam)
      modifies this
      ensures meterId.One? && meterId.s != "" ==> selectedView == Single && selectedZone == Some(meterId.s)
      ensures meterId.Many? ==> selectedView == Single && selectedZone == (if |meterId.ss| > 0 then Some(meterId.ss[0]) else None)
      ensures meterId.Absent? || meterId == One("") ==> selectedView == All && selectedZone == old(selectedZone)
      ensures selectedUnit == old(selectedUnit) && zoneData == old(zoneData)
    {
      match meterId
      case Absent =>
        selectedView := All;
      case One(s) =>
        if s != "" {
          selectedView := Single;
          selectedZone := Some(s);
        } else {
          selectedView := All;
        }
      case Many(ss) =>
        selectedView := Single;
        selectedZone := if |ss| > 0 then Some(ss[0]) else None;
    }

    method ToggleSwitch()
      modifies this
      ensures selectedUnit == Toggle(old(selectedUnit))
      ensures selectedView == old(selectedView) && selectedZone == old(selectedZone) && zoneData == old(zoneData)
    {
      selectedUnit := Toggle(selectedUnit);
    }

    /** The fetch effect: the request it sends, and the new series; a failed request changes nothing,
        a reply without `consumptionData` reads as `[]`. */
    method FetchZoneData(startDate: string, endDate: string, response: Option<Option<seq<Item>>>) returns (req: Request)
      modifies this
      ensures req == RequestFor(selectedView, selectedUnit, startDate, endDate, selectedZone)
      ensures response.None? ==> zoneData == old(zoneData)
      ensures response.Some? ==> zoneData == Format(ZoneMetadata, Grouped(OrEmpty(response.value)), selectedUnit)
      ensures selectedUnit == old(selectedUnit) && selectedView == old(selectedView) && selectedZone == old(selectedZone)
    {
      req := RequestFor(selectedView, selectedUnit, startDate, endDate, selectedZone);
      if response.None? {
        return;
      }
      var groupedData := GroupBy(OrEmpty(response.value));
      zoneData := Format(ZoneMetadata, groupedData, selectedUnit);
    }

    /** `generateChartData().data` for the current view. */
    function ChartData(): (m: seq<seq<int>>)
      reads this
      ensures |m| == 24
      ensures selectedView == All ==> forall h :: 0 <= h < 24 ==> |m[h]| == |ZoneMetadata|
      ensures selectedView == Single ==> forall h :: 0 <= h < 24 ==> |m[h]| == 1
    {
      if selectedView == All then ChartAll(zoneData) else ChartSingle(zoneData, selectedZone)
    }
  }
}
