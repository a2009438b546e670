/** The diesel-generator details modal (components/dgdetailsmodal.tsx): the effect that
    reads the selected generator's block out of `modalData` into the modal's fields, inside
    try/catch/finally, and the toggle between meters 13 and 14. */
module DgModal {
  import opened Text
  import opened Clock
  import opened DieselGen

  /** `dgdcv[dgNo]`: averaged voltage and current and the time of the last reading. */
  datatype MeterInfo = MeterInfo(avgVln: Option<int>, avgCurrent: Option<int>, timestamp: Option<string>)

  /** `Missing` is `undefined`; `Null` a present `null`; `Value(n)` a number. */
  datatype Field = Missing | Null | Value(n: int)

  /** `modalData.DG1` or `modalData.DG2`: `dgd.energyProduced`, and the per-meter
      `dgdcv`, `dgdrt` (running minutes) and `hrly_kwh_diff` (timestamp to kWh, in key order). */
  datatype DgBlock = DgBlock(energyProduced: Field, dgdcv: map<int, MeterInfo>,
                             dgdrt: map<int, Option<int>>, hourly: map<int, seq<(string, int)>>)

  datatype ModalData = ModalData(dg1: Option<DgBlock>, dg2: Option<DgBlock>)

  /** One bar of the chart: `{ y: kWh, originalTimestamp: ts }`. */
  datatype Bar = Bar(y: int, originalTimestamp: string)

  /** The modal shows meter 13 as DG1 and meter 14 as DG2. */
  function BlockName(dgNo: int): string
  {
    if dgNo == 13 then "DG1" else "DG2"
  }

  function BlockOf(data: ModalData, dgNo: int): (b: Option<DgBlock>)
    ensures b == (if BlockName(dgNo) == "DG1" then data.dg1 else data.dg2)
  {
    if dgNo == 13 then data.dg1 else data.dg2
  }

  /** `handleToggleDG`: the other generator. */
  function ToggleDG(dgNo: int): (r: int)
    requires dgNo == 13 || dgNo == 14
    ensures (r == 13 || r == 14) && r != dgNo
  {
    if dgNo == 13 then 14 else 13
  }

  lemma {:induction false} ToggleInvolution(dgNo: int)
    requires dgNo == 13 || dgNo == 14
    ensures ToggleDG(ToggleDG(dgNo)) == dgNo
    ensures BlockName(ToggleDG(dgNo)) != BlockName(dgNo)
  {
  }

  /** `energyProduced !== undefined ? energyProduced : 0`; a present null is kept. */
  function EnergyOf(f: Field): (e: Option<int>)
    ensures f.Missing? ==> e == Some(0)
    ensures f.Null? ==> e.None?
    ensures f.Value? ==> e == Some(f.n)
  {
    match f
    case Missing => Some(0)
    case Null => None
    case Value(n) => Some(n)
  }

  /** The status rule: Running when the last reading is at most 180 seconds old, the
      difference taken with its sign (so any future reading is Running); Off without a
      timestamp or for one that does not parse. */
  function ModalStatus(info: Option<MeterInfo>, now: int): (s: Status)
    ensures s == Running || s == Off
    ensures s == Running <==> (info.Some? && info.value.timestamp.Some? && info.value.timestamp.value != "" && ParseInstant(info.value.timestamp.value).Some? && now - ParseInstant(info.value.timestamp.value).value <= 180)
  {
    if info.Some? && info.value.timestamp.Some? && info.value.timestamp.value != "" then
      match ParseInstant(info.value.timestamp.value)
      case Some(t) => if now - t <= 180 then Running else Off
      case None => Off
    else Off
  }

  /** For a well-formed timestamp: Running exactly when it is at most 180 seconds in the past,
      or in the future. */
  lemma {:induction false} ModalStatusOfFormatted(vln: Option<int>, current: Option<int>, t: int, now: int)
    ensures ModalStatus(Some(MeterInfo(vln, current, Some(FormatDateTime(Breakdown(t))))), now) == (if t >= now - 180 then Running else Off)
  {
    var ts := FormatDateTime(Breakdown(t));
    ParseInstantOfFormatted(t);
    FormattedNonEmpty(t);
    assert ParseInstant(ts) == Some(t);
  }

  /** The card and the modal judge freshness against different clocks: the card against the
      time it mounted, within 3 seconds either side, the modal against a clock read on every
      data change, up to 180 seconds back and any time ahead. A reading taken more than 3
      seconds after the card mounted and at most 180 seconds before the modal's clock is Off
      on the card and Running in the modal; this includes a reading 4 seconds ahead of a
      clock both share. */
  lemma {:induction false} CardAndModalDisagree(vln: Option<int>, current: Option<int>, mountTime: int, now: int, t: int)
    requires t > mountTime + 3 && now - t <= 180
    ensures var ts := FormatDateTime(Breakdown(t));
      GetStatus(Some(ts), mountTime) == Off && ModalStatus(Some(MeterInfo(vln, current, Some(ts))), now) == Running
  {
    StatusOfFormatted(t, mountTime);
    ModalStatusOfFormatted(vln, current, t, now);
  }

  /** `Object.entries(hourlyData).map(([ts, kWh]) => ({ y: kWh, originalTimestamp: ts }))`. */
  function Bars(entries: seq<(string, int)>): (bars: seq<Bar>)
    ensures |bars| == |entries|
    ensures forall i :: 0 <= i < |entries| ==> bars[i] == Bar(entries[i].1, entries[i].0)
  {
    seq(|entries|, i requires 0 <= i < |entries| => Bar(entries[i].1, entries[i].0))
  }

  /** The chart keeps the readings: its bars give back the entries they came from. */
  lemma {:induction false} BarsRoundTrip(entries: seq<(string, int)>)
    ensures seq(|entries|, i requires 0 <= i < |entries| => (Bars(entries)[i].originalTimestamp, Bars(entries)[i].y)) == entries
  {
  }

  class DgModalView {
    var loading: bool
    var energyProduced: Option<int>
    var timestamp: Option<string>
    var runtime: Option<int>
    var status: Status
    var vlnValue: Option<int>
    var currentValue: Option<int>
    var consumptionData: seq<Bar>

    constructor ()
      ensures loading && energyProduced.None? && timestamp.None? && runtime.None? && status == Off
      ensures vlnValue.None? && currentValue.None? && consumptionData == []
    {
      loading := true;
      energyProduced := None;
      timestamp := None;
      runtime := None;
      status := Off;
      vlnValue := None;
      currentValue := None;
      consumptionData := [];
    }

    /** The data effect. Without `modalData` nothing changes. With it, a selected block that is
        missing makes `currentDGData.dgdcv` throw: the catch sets the energy to 0 and the bars to
        `[]`, and the other fields keep their values. Otherwise every field is read from the
        block, with the defaults of the source. Loading is false at the end either way. */
    method Apply(modalData: Option<ModalData>, dgNo: int, now: int)
      requires dgNo == 13 || dgNo == 14
      modifies this
      ensures modalData.None? ==>
        (loading == old(loading) && energyProduced == old(energyProduced)
         && timestamp == old(timestamp) && runtime == old(runtime) && status == old(status)
         && vlnValue == old(vlnValue) && currentValue == old(currentValue) && consumptionData == old(consumptionData))
      ensures modalData.Some? ==> !loading
      ensures modalData.Some? && BlockOf(modalData.value, dgNo).None? ==>
        (energyProduced == Some(0) && consumptionData == []
         && timestamp == old(timestamp) && runtime == old(runtime) && status == old(status)
         && vlnValue == old(vlnValue) && currentValue == old(currentValue))
      ensures modalData.Some? && BlockOf(modalData.value, dgNo).Some? ==>
        var b := BlockOf(modalData.value, dgNo).value;
        var info := if dgNo in b.dgdcv then Some(b.dgdcv[dgNo]) else None;
        energyProduced == EnergyOf(b.energyProduced)
        && vlnValue == (if info.Some? then info.value.avgVln else None)
        && currentValue == (if info.Some? then info.value.avgCurrent else None)
        && timestamp == (if info.Some? then info.value.timestamp else None)
        && status == ModalStatus(info, now)
        && runtime == (if dgNo in b.dgdrt then b.dgdrt[dgNo] else None)
        && consumptionData == (if dgNo in b.hourly then Bars(b.hourly[dgNo]) else [])
    {
      if modalData.None? {
        return;
      }
      loading := true;
      var block := BlockOf(modalData.value, dgNo);
      energyProduced := if block.Some? then EnergyOf(block.value.energyProduced) else Some(0);
      if block.None? {
        energyProduced := Some(0);
        consumptionData := [];
      } else {
        var b := block.value;
        var info := if dgNo in b.dgdcv then Some(b.dgdcv[dgNo]) else None;
        if info.Some? {
          vlnValue := info.value.avgVln;
          currentValue := info.value.avgCurrent;
          timestamp := info.value.timestamp;
        } else {
          vlnValue := None;
          currentValue := None;
          timestamp := None;
        }
        status := ModalStatus(info, now);
        runtime := if dgNo in b.dgdrt then b.dgdrt[dgNo] else None;
        consumptionData := if dgNo in b.hourly then Bars(b.hourly[dgNo]) else [];
      }
      loading := false;
    }
  }
}
