/** The energy-meter cards (components/energymeters.tsx): the zone table, the
    merge of the API's records with the twelve default meters, the synthetic total
    card spliced in before the transformer, and the pages of eight cards.
    Consumptions are integers (tenths of kVAh). */
module EnergyMeters {
  import opened Text

  /** A zone's name and block; a missing or null category is None. */
  datatype ZoneInfo = ZoneInfo(name: string, category: Option<string>)

  /** `zoneDetails`, entry `i` for meter `i + 1`; the transformer has no category. */
  const ZoneDetails: seq<ZoneInfo> := [
    ZoneInfo("PLATING", Some("C-49")),
    ZoneInfo("DIE CASTING+CB+CNC", Some("C-50")),
    ZoneInfo("SCOTCH BUFFING", Some("C-50")),
    ZoneInfo("BUFFING", Some("C-49")),
    ZoneInfo("SPRAY+EPL-I", Some("C-50")),
    ZoneInfo("SPRAY+ EPL-II", Some("C-49")),
    ZoneInfo("RUMBLE", Some("C-50")),
    ZoneInfo("AIR COMPRESSOR", Some("C-49")),
    ZoneInfo("TERRACE", Some("C-49")),
    ZoneInfo("TOOL ROOM", Some("C-50")),
    ZoneInfo("ADMIN BLOCK", Some("C-50")),
    ZoneInfo("TRANSFORMER", None)]

  /** `getZoneInfo`: 0 is the total card, 1..12 the table, anything else an unknown zone. */
  function GetZoneInfo(id: int): (z: ZoneInfo)
    ensures id == 0 ==> z == ZoneInfo("TOTAL CONSUMPTION", None)
    ensures 1 <= id <= 12 ==> z == ZoneDetails[id - 1]
    ensures id != 0 && !(1 <= id <= 12) ==> z == ZoneInfo("Unknown Zone", Some("N/A"))
  {
    if id == 0 then ZoneInfo("TOTAL CONSUMPTION", None)
    else if 1 <= id <= 12 then ZoneDetails[id - 1]
    else ZoneInfo("Unknown Zone", Some("N/A"))
  }

  /** The card shows the zone badge with its block when the category is truthy, else the orange badge. */
  predicate HasBlockBadge(z: ZoneInfo)
  {
    z.category.Some? && z.category.value != ""
  }

  /** Only the total card and the transformer get the orange badge; unknown ids show "Block: N/A". */
  lemma {:induction false} BadgeRule(id: int)
    ensures HasBlockBadge(GetZoneInfo(id)) <==> id != 0 && id != 12
    ensures !(0 <= id <= 12) ==> GetZoneInfo(id).category == Some("N/A")
  {
    if 1 <= id <= 11 {
      assert ZoneDetails[id - 1].category.Some? && |ZoneDetails[id - 1].category.value| == 4;
    }
  }

  // ---------------------------------------------------------------------------
  // The merge with the default meters.

  datatype MeterData = MeterData(id: int, consumption: int)

  /** `apiData.find(item => item.id === id)`: the first record with that id. */
  function Find(api: seq<MeterData>, id: int): (r: Option<MeterData>)
    ensures r.Some? <==> exists i :: 0 <= i < |api| && api[i].id == id
    ensures r.Some? ==> exists i :: 0 <= i < |api| && api[i] == r.value && api[i].id == id && (forall j :: 0 <= j < i ==> api[j].id != id)
  {
    if |api| == 0 then None
    else if api[0].id == id then Some(api[0])
    else
      var r := Find(api[1..], id);
      assert forall i :: 1 <= i < |api| ==> api[i] == api[1..][i - 1];
      if r.Some? then
        var i :| 0 <= i < |api[1..]| && api[1..][i] == r.value && api[1..][i].id == id && (forall j :: 0 <= j < i ==> api[1..][j].id != id);
        assert api[i + 1] == r.value;
        r
      else r
  }

  /** `defaultMeters.map(d => apiData.find(...) || d)`: ids 1..12, first record with each id, else consumption 0. */
  function Merge(api: seq<MeterData>): (ms: seq<MeterData>)
    ensures |ms| == 12
    ensures forall i :: 0 <= i < 12 ==> ms[i].id == i + 1
    ensures forall i :: 0 <= i < 12 ==>
      ms[i] == (var f := Find(api, i + 1); if f.Some? then f.value else MeterData(i + 1, 0))
  {
    seq(12, i requires 0 <= i < 12 =>
      var f := Find(api, i + 1); if f.Some? then f.value else MeterData(i + 1, 0))
  }

  /** A merged entry is an API record (the first with its id) or the zero default; ids outside 1..12 never appear. */
  lemma {:induction false} MergeMeaning(api: seq<MeterData>, i: nat)
    requires i < 12
    ensures (exists k :: 0 <= k < |api| && api[k].id == i + 1) ==>
      exists k :: 0 <= k < |api| && Merge(api)[i] == api[k] && (forall j :: 0 <= j < k ==> api[j].id != i + 1)
    ensures (forall k :: 0 <= k < |api| ==> api[k].id != i + 1) ==> Merge(api)[i] == MeterData(i + 1, 0)
    ensures forall m :: m in Merge(api) ==> 1 <= m.id <= 12
  {
    var ms := Merge(api);
    forall m | m in ms ensures 1 <= m.id <= 12 {
      var j :| 0 <= j < 12 && ms[j] == m;
    }
  }

  // ---------------------------------------------------------------------------
  // The card list and its pages.

  /** `energyMeters.filter(m => m.id !== 12)`. */
  function Others(ms: seq<MeterData>): (r: seq<MeterData>)
    ensures forall m :: m in r <==> m in ms && m.id != 12
  {
    if |ms| == 0 then []
    else
      var last := ms[|ms| - 1];
      assert forall m :: m in ms <==> m in ms[..|ms| - 1] || m == last;
      Others(ms[..|ms| - 1]) + (if last.id != 12 then [last] else [])
  }

  /** `energyMeters.filter(m => m.id === 12)`. */
  function Transformer(ms: seq<MeterData>): (r: seq<MeterData>)
    ensures forall m :: m in r <==> m in ms && m.id == 12
  {
    if |ms| == 0 then []
    else
      var last := ms[|ms| - 1];
      assert forall m :: m in ms <==> m in ms[..|ms| - 1] || m == last;
      Transformer(ms[..|ms| - 1]) + (if last.id == 12 then [last] else [])
  }

  /** `allMeters`: the other meters, then the total card (id 0), then the transformer. */
  function AllMeters(ms: seq<MeterData>, total: int): seq<MeterData>
  {
    Others(ms) + [MeterData(0, total)] + Transformer(ms)
  }

  /** The two filters split the list: their lengths add up. */
  lemma {:induction false} FiltersPartition(ms: seq<MeterData>)
    ensures |Others(ms)| + |Transformer(ms)| == |ms|
  {
    if |ms| > 0 {
      FiltersPartition(ms[..|ms| - 1]);
    }
  }

  /** One card more than there are meters, and the total card sits after every non-transformer meter. */
  lemma {:induction false} AllMetersShape(ms: seq<MeterData>, total: int)
    ensures |AllMeters(ms, total)| == |ms| + 1
    ensures AllMeters(ms, total)[|Others(ms)|] == MeterData(0, total)
    ensures forall m :: m in AllMeters(ms, total) <==> m in ms || m == MeterData(0, total)
  {
    FiltersPartition(ms);
    var a := AllMeters(ms, total);
    forall m | m in ms ensures m in a {
      if m.id == 12 { assert m in Transformer(ms); } else { assert m in Others(ms); }
    }
  }

  lemma {:induction false} FiltersOfNoTransformer(ms: seq<MeterData>)
    requires forall i :: 0 <= i < |ms| ==> ms[i].id != 12
    ensures Others(ms) == ms && Transformer(ms) == []
  {
    if |ms| > 0 {
      FiltersOfNoTransformer(ms[..|ms| - 1]);
    }
  }

  lemma {:induction false} AllMetersOfTwelve(ms: seq<MeterData>, total: int)
    requires |ms| == 12 && forall i :: 0 <= i < 12 ==> ms[i].id == i + 1
    ensures AllMeters(ms, total) == ms[..11] + [MeterData(0, total)] + [ms[11]]
  {
    FiltersOfNoTransformer(ms[..11]);
    assert ms[..|ms| - 1] == ms[..11];
    assert Others(ms) == Others(ms[..11]);
    assert Transformer(ms) == Transformer(ms[..11]) + [ms[11]];
  }

  /** On the merged list: meters 1..11, the total, then meter 12; thirteen cards. */
  lemma {:induction false} AllMetersOfMerge(api: seq<MeterData>, total: int)
    ensures AllMeters(Merge(api), total) == Merge(api)[..11] + [MeterData(0, total)] + [Merge(api)[11]]
  {
    AllMetersOfTwelve(Merge(api), total);
  }

  /** Pages joined back together. */
  function Concat<T>(pages: seq<seq<T>>): seq<T>
  {
    if |pages| == 0 then [] else Concat(pages[..|pages| - 1]) + pages[|pages| - 1]
  }

  const PageSize: nat := 8

  function Min(a: int, b: int): int { if a <= b then a else b }

  /** Page `k` of `items`: `items.slice(PageSize * k, PageSize * k + PageSize)`. */
  function Page<T>(items: seq<T>, k: nat): seq<T>
    requires PageSize * k <= |items|
  {
    items[PageSize * k .. Min(PageSize * k + PageSize, |items|)]
  }

  /** One more page keeps the pages the slices of `items` and their concatenation a prefix of it. */
  lemma {:induction false} PagesStep<T>(items: seq<T>, pages: seq<seq<T>>)
    requires PageSize * |pages| < |items|
    requires forall k :: 0 <= k < |pages| ==> pages[k] == Page(items, k)
    requires Concat(pages) == items[..PageSize * |pages|]
    ensures var next := pages + [Page(items, |pages|)];
      (forall k :: 0 <= k < |next| ==> next[k] == Page(items, k))
      && Concat(next) == items[..Min(PageSize * |next|, |items|)]
  {
    var i := PageSize * |pages|;
    var page := Page(items, |pages|);
    var next := pages + [page];
    assert next[..|pages|] == pages;
    assert Concat(next) == Concat(pages) + page;
    assert items[..i] + page == items[..Min(i + PageSize, |items|)];
  }

  /** Slices of a non-empty list, `PageSize` apart: every one non-empty and at most `PageSize`
      long, all but the last exactly `PageSize` long. */
  lemma {:induction false} PageSizes<T>(items: seq<T>, pages: seq<seq<T>>)
    requires PageSize * |pages| >= |items| && (|pages| > 0 ==> PageSize * (|pages| - 1) < |items|)
    requires forall k :: 0 <= k < |pages| ==> PageSize * k <= |items| && pages[k] == Page(items, k)
    ensures forall k :: 0 <= k < |pages| ==> 1 <= |pages[k]| <= PageSize
    ensures forall k :: 0 <= k < |pages| - 1 ==> |pages[k]| == PageSize
  {
    forall k | 0 <= k < |pages| ensures 1 <= |pages[k]| <= PageSize && (k < |pages| - 1 ==> |pages[k]| == PageSize) {
      assert PageSize * k <= PageSize * (|pages| - 1);
    }
  }

  /** The `zonePages` loop: `allMeters.slice(i, i + 8)` for i = 0, 8, 16, ... while i < length. */
  method Paginate<T>(items: seq<T>) returns (pages: seq<seq<T>>)
    ensures |pages| == (|items| + PageSize - 1) / PageSize
    ensures forall k :: 0 <= k < |pages| ==> pages[k] == items[PageSize * k .. Min(PageSize * k + PageSize, |items|)]
    ensures forall k :: 0 <= k < |pages| ==> 1 <= |pages[k]| <= PageSize
    ensures forall k :: 0 <= k < |pages| - 1 ==> |pages[k]| == PageSize
    ensures Concat(pages) == items
  {
    pages := [];
    var i := 0;
    while i < |items|
      invariant i == PageSize * |pages|
      invariant i <= |items| || (|items| > 0 && i < |items| + PageSize)
      invariant |items| == 0 ==> i == 0
      invariant forall k :: 0 <= k < |pages| ==> PageSize * k <= |items| && pages[k] == Page(items, k)
      invariant Concat(pages) == items[..Min(i, |items|)]
    {
      PagesStep(items, pages);
      pages := pages + [Page(items, |pages|)];
      i := i + PageSize;
    }
    PageSizes(items, pages);
  }

  // ---------------------------------------------------------------------------
  // The card's navigation and the fetch effect.

  datatype NavParams = NavParams(initialTab: string, startDate: string, endDate: string, meterId: Option<string>)

  /** "View Details": the Zones tab over the same range, with `meterId` only for a real meter. */
  function DetailsParams(id: int, startDateTime: string, endDateTime: string): (p: NavParams)
    ensures p.initialTab == "Zones" && p.startDate == startDateTime && p.endDate == endDateTime
    ensures p.meterId.Some? <==> id != 0
  {
    NavParams("Zones", startDateTime, endDateTime, if id != 0 then Some(IntToString(id)) else None)
  }

  /** The Zones view reads the meter back with `parseInt`: for meters 1..12 it gets the same id. */
  lemma {:induction false} DetailsParamsRoundTrip(id: int, startDateTime: string, endDateTime: string)
    requires id > 0
    ensures ParseInt(DetailsParams(id, startDateTime, endDateTime).meterId.value) == Some(id)
  {
    var s := NatToString(id);
    assert IntToString(id) == s;
    ParseIntOfDigits(s, "");
    assert s + "" == s;
    NatToStringRoundTrip(id);
  }

  /** The reply of the second request: a failure, or a payload whose `consumption` may be missing. */
  datatype TotalResponse = TotalFailed | TotalOk(consumption: Option<int>)

  /** `totalRes.data?.consumption ?? 0`, and 0 from the catch. */
  function TotalOf(res: TotalResponse): (t: int)
    ensures res.TotalOk? && res.consumption.Some? ==> t == res.consumption.value
    ensures res.TotalFailed? || res.consumption.None? ==> t == 0
  {
    if res.TotalOk? && res.consumption.Some? then res.consumption.value else 0
  }

  /** The component's state. */
  class EnergyMetersView {
    var energyMeters: seq<MeterData>
    var totalConsumption: int

    constructor ()
      ensures energyMeters == [] && totalConsumption == 0
    {
      energyMeters := [];
      totalConsumption := 0;
    }

    /** The cards currently rendered, page by page. */
    method ZonePages() returns (pages: seq<seq<MeterData>>)
      ensures Concat(pages) == AllMeters(energyMeters, totalConsumption)
      ensures forall k :: 0 <= k < |pages| ==> 1 <= |pages[k]| <= PageSize
      ensures |pages| == (|energyMeters| + PageSize) / PageSize
    {
      AllMetersShape(energyMeters, totalConsumption);
      pages := Paginate(AllMeters(energyMeters, totalConsumption));
    }

    /** The fetch effect. No request without both datetimes; a failed first request
        (or one without `consumptionData`) leaves everything as it was. */
    method FetchData(startDateTime: string, endDateTime: string, consumptionData: Option<seq<MeterData>>, totalRes: TotalResponse)
      modifies this
      ensures startDateTime == "" || endDateTime == "" || consumptionData.None? ==>
        energyMeters == old(energyMeters) && totalConsumption == old(totalConsumption)
      ensures startDateTime != "" && endDateTime != "" && consumptionData.Some? ==>
        energyMeters == Merge(consumptionData.value) && totalConsumption == TotalOf(totalRes)
    {
      if startDateTime == "" || endDateTime == "" {
        return;
      }
      if consumptionData.None? {
        return;
      }
      energyMeters := Merge(consumptionData.value);
      totalConsumption := TotalOf(totalRes);
    }
  }
}
