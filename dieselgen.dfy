/** The diesel-generator card (components/dieselgenerator.tsx): the status of a meter
    from the age of its last reading, its colour, the fallbacks for meters 13 and 14, the
    rendered fields and the fetch effect. Times are local seconds of the plant's zone, the
    frame in which both the clock and the timestamps are read. */
module DieselGen {
  import opened Text
  import opened Clock

  datatype Status = Running | Off | NotAvailable

  function StatusText(s: Status): string
  {
    match s
    case Running => "Running"
    case Off => "Off"
    case NotAvailable => "N/A"
  }

  /** `moment.tz(ts, 'YYYY-MM-DD HH:mm:ss', zone)` as an instant; None when it is invalid. */
  function ParseInstant(ts: string): (r: Option<int>)
    ensures r.Some? <==> ParseDateTime(ts).Some?
  {
    match ParseDateTime(ts)
    case Some(dt) => Some(Compose(dt))
    case None => None
  }

  /** A rendered instant parses back to itself. */
  lemma {:induction false} ParseInstantOfFormatted(t: int)
    ensures ParseInstant(FormatDateTime(Breakdown(t))) == Some(t)
  {
    ParseFormatRoundTrip(Breakdown(t));
    ComposeBreakdown(t);
  }

  function Abs(x: int): int { if x < 0 then -x else x }

  /** `getStatus`: N/A without a timestamp (null or empty); Running when the reading is at most
      3 seconds away from now, in either direction; Off otherwise, and for an invalid
      timestamp (its difference is NaN, so the comparison fails). */
  function GetStatus(timestamp: Option<string>, now: int): (s: Status)
    ensures s == NotAvailable <==> timestamp.None? || timestamp.value == ""
    ensures s == Running <==> (timestamp.Some? && timestamp.value != "" && ParseInstant(timestamp.value).Some? && Abs(now - ParseInstant(timestamp.value).value) <= 3)
  {
    if timestamp.None? || timestamp.value == "" then NotAvailable
    else
      match ParseInstant(timestamp.value)
      case None => Off
      case Some(t) => if Abs(now - t) <= 3 then Running else Off
  }

  /** For a well-formed timestamp the status depends only on the distance to now: a reading
      3 seconds in the future counts just as one 3 seconds old. */
  lemma {:induction false} StatusOfFormatted(t: int, now: int)
    ensures GetStatus(Some(FormatDateTime(Breakdown(t))), now) == (if -3 <= now - t <= 3 then Running else Off)
  {
    var ts := FormatDateTime(Breakdown(t));
    ParseInstantOfFormatted(t);
    FormattedNonEmpty(t);
    assert ParseInstant(ts) == Some(t);
  }

  /** The rendering is never empty, so a formatted timestamp is never "N/A". */
  lemma {:induction false} FormattedNonEmpty(t: int)
    ensures FormatDateTime(Breakdown(t)) != ""
  {
    assert |FormatTail(Breakdown(t))| > 0;
  }

  /** `getStatusColor`. */
  function StatusColor(s: Status): (c: string)
    ensures c == "green" <==> s == Running
    ensures c == "green" || c == "red"
  {
    if s == Running then "green" else "red"
  }

  /** One entry of the `dgdc` reply. */
  datatype DgRecord = DgRecord(totalKW: Option<int>, timestamp: Option<string>)

  /** `dgData && dgData[id] ? dgData[id] : { total_kW: null, timestamp: null }`. */
  function DgOf(dgData: Option<map<int, DgRecord>>, id: int): (r: DgRecord)
    ensures dgData.Some? && id in dgData.value ==> r == dgData.value[id]
    ensures !(dgData.Some? && id in dgData.value) ==> r == DgRecord(None, None)
  {
    if dgData.Some? && id in dgData.value then dgData.value[id] else DgRecord(None, None)
  }

  /** `total_kW != null ? `${total_kW} kW` : 'N/A'`. */
  function PowerText(r: DgRecord): (s: string)
    ensures r.totalKW.None? ==> s == "N/A"
    ensures r.totalKW.Some? ==> s == IntToString(r.totalKW.value) + " kW"
  {
    if r.totalKW.Some? then IntToString(r.totalKW.value) + " kW" else "N/A"
  }

  /** "Last Updated": the timestamp re-rendered through moment, or N/A without one; moment renders
      a timestamp it cannot parse as "Invalid date". */
  function LastUpdated(r: DgRecord): (s: string)
    ensures r.timestamp.None? || r.timestamp.value == "" ==> s == "N/A"
    ensures r.timestamp.Some? && r.timestamp.value != "" && ParseDateTime(r.timestamp.value).None? ==> s == "Invalid date"
    ensures r.timestamp.Some? && r.timestamp.value != "" && ParseDateTime(r.timestamp.value).Some? ==>
      ParseDateTime(s) == ParseDateTime(r.timestamp.value)
  {
    if r.timestamp.None? || r.timestamp.value == "" then "N/A"
    else
      match ParseDateTime(r.timestamp.value)
      case Some(dt) =>
        ParseFormatRoundTrip(dt);
        FormatDateTime(dt)
      case None => "Invalid date"
  }

  /** A missing generator shows N/A for its status, output and last update alike; a
      well-formed timestamp is shown as it came. */
  lemma {:induction false} MissingGeneratorShowsNA(dgData: Option<map<int, DgRecord>>, id: int, now: int)
    requires !(dgData.Some? && id in dgData.value)
    ensures GetStatus(DgOf(dgData, id).timestamp, now) == NotAvailable
    ensures PowerText(DgOf(dgData, id)) == "N/A" && LastUpdated(DgOf(dgData, id)) == "N/A"
  {
  }

  lemma {:induction false} LastUpdatedOfFormatted(totalKW: Option<int>, t: int)
    ensures LastUpdated(DgRecord(totalKW, Some(FormatDateTime(Breakdown(t))))) == FormatDateTime(Breakdown(t))
  {
    ParseFormatRoundTrip(Breakdown(t));
    FormattedNonEmpty(t);
  }

  /** The fields one generator box renders. */
  datatype GenCard = GenCard(status: Status, color: string, power: string, lastUpdated: string)

  class DieselGenView {
    var dgData: Option<map<int, DgRecord>>
    var loading: bool
    /** The clock of `getStatus`: read once when the card mounts and never set again, so every
        status the card shows is measured against the mount time. */
    const currentTime: int

    constructor (now: int)
      ensures currentTime == now && dgData.None? && loading
    {
      currentTime := now;
      dgData := None;
      loading := true;
    }

    /** The DG1 (meter 13) or DG2 (meter 14) box: its status is Running exactly when its
        timestamp parses to within 3 seconds of the mount-time clock, green exactly then,
        with the output and the last update of its record. */
    function Card(id: int): (c: GenCard)
      reads this
      ensures var r := DgOf(dgData, id);
        c.status == Running <==> (r.timestamp.Some? && r.timestamp.value != "" &&
          ParseInstant(r.timestamp.value).Some? && Abs(currentTime - ParseInstant(r.timestamp.value).value) <= 3)
      ensures var r := DgOf(dgData, id);
        c.status == NotAvailable <==> r.timestamp.None? || r.timestamp.value == ""
      ensures c.color == "green" <==> c.status == Running
      ensures c.power == PowerText(DgOf(dgData, id)) && c.lastUpdated == LastUpdated(DgOf(dgData, id))
    {
      var r := DgOf(dgData, id);
      var s := GetStatus(r.timestamp, currentTime);
      GenCard(s, StatusColor(s), PowerText(r), LastUpdated(r))
    }

    /** The fetch effect. Without both datetimes nothing happens (the spinner stays). Otherwise a
        reply (None for a failed or non-OK request, which throws and is caught) replaces the data
        only when it arrives, and loading ends either way. Returns whether a request was made. */
    method FetchDetails(startDateTime: string, endDateTime: string, response: Option<map<int, DgRecord>>)
      returns (requested: bool)
      modifies this
      ensures requested <==> startDateTime != "" && endDateTime != ""
      ensures !requested ==> dgData == old(dgData) && loading == old(loading)
      ensures requested ==> !loading && dgData == (if response.Some? then response else old(dgData))
    {
      if startDateTime == "" || endDateTime == "" {
        return false;
      }
      requested := true;
      if response.Some? {
        dgData := response;
      }
      loading := false;
    }
  }

  /** The card's clock is frozen at mount: a reading taken more than 3 seconds after the card
      mounted shows Off however fresh it is. */
  lemma {:induction false} FrozenClockShowsOff(v: DieselGenView, id: int, t: int)
    requires DgOf(v.dgData, id).timestamp == Some(FormatDateTime(Breakdown(t)))
    requires t > v.currentTime + 3
    ensures v.Card(id).status == Off && v.Card(id).color == "red"
  {
    StatusOfFormatted(t, v.currentTime);
  }
}
