/** The `modbus_data` time series as the backend's SQL sees it: one reading per
    row, cumulative kWh and kVAh counters held in hundredths (fixed point with two
    decimals), NULL as None. The SQL aggregates are functions over a sequence of
    such rows; ROUND(x, 1) and toFixed(1) map hundredths to tenths. */
module Readings {
  import opened Text

  datatype Reading = Reading(meter: int, ts: int, kWh: Option<int>, kVAh: Option<int>)

  datatype Metric = KWh | KVAh

  /** What `pool.query` yields: the rows of `modbus_data`, or the error it rejects with. */
  datatype Fetched = Rows(readings: seq<Reading>) | DbError(message: string)

  function ValueOf(r: Reading, metric: Metric): Option<int>
  {
    match metric
    case KWh => r.kWh
    case KVAh => r.kVAh
  }

  /** `energy_meter_id BETWEEN 1 AND 11 AND timestamp BETWEEN start AND end`: both bounds inclusive. */
  predicate InWindow(r: Reading, start: int, end: int)
  {
    1 <= r.meter <= 11 && start <= r.ts <= end
  }

  /** The WHERE clause, in row order. */
  function Window(rs: seq<Reading>, start: int, end: int): (w: seq<Reading>)
    ensures forall r :: r in w <==> r in rs && InWindow(r, start, end)
  {
    if |rs| == 0 then []
    else if InWindow(rs[0], start, end) then [rs[0]] + Window(rs[1..], start, end)
    else Window(rs[1..], start, end)
  }

  /** The values of one metric over the rows that satisfy `keep`, NULLs included. */
  function Column(rs: seq<Reading>, metric: Metric): (vs: seq<Option<int>>)
    ensures |vs| == |rs|
    ensures forall i :: 0 <= i < |rs| ==> vs[i] == ValueOf(rs[i], metric)
  {
    if |rs| == 0 then [] else [ValueOf(rs[0], metric)] + Column(rs[1..], metric)
  }

  function Max2(a: Option<int>, b: Option<int>): Option<int>
  {
    if a.None? then b else if b.None? then a else Some(if a.value >= b.value then a.value else b.value)
  }

  function Min2(a: Option<int>, b: Option<int>): Option<int>
  {
    if a.None? then b else if b.None? then a else Some(if a.value <= b.value then a.value else b.value)
  }

  /** SQL MAX: NULLs are skipped; NULL when no value is present. */
  function MaxOf(vs: seq<Option<int>>): Option<int>
  {
    if |vs| == 0 then None else Max2(vs[0], MaxOf(vs[1..]))
  }

  /** SQL MIN: NULLs are skipped; NULL when no value is present. */
  function MinOf(vs: seq<Option<int>>): Option<int>
  {
    if |vs| == 0 then None else Min2(vs[0], MinOf(vs[1..]))
  }

  /** MAX is one of the values and no value exceeds it; it is NULL exactly when every value is. */
  lemma {:induction false} MaxOfFacts(vs: seq<Option<int>>)
    ensures MaxOf(vs).Some? <==> exists i :: 0 <= i < |vs| && vs[i].Some?
    ensures MaxOf(vs).Some? ==> exists i :: 0 <= i < |vs| && vs[i] == MaxOf(vs)
    ensures MaxOf(vs).Some? ==> forall i :: 0 <= i < |vs| && vs[i].Some? ==> vs[i].value <= MaxOf(vs).value
  {
    if |vs| > 0 {
      MaxOfFacts(vs[1..]);
      assert forall i :: 1 <= i < |vs| ==> vs[i] == vs[1..][i - 1];
      if MaxOf(vs[1..]).Some? {
        var j :| 0 <= j < |vs| - 1 && vs[1..][j] == MaxOf(vs[1..]);
        assert vs[j + 1] == MaxOf(vs[1..]);
      }
    }
  }

  /** MIN is one of the values and no value is below it; it is NULL exactly when every value is. */
  lemma {:induction false} MinOfFacts(vs: seq<Option<int>>)
    ensures MinOf(vs).Some? <==> exists i :: 0 <= i < |vs| && vs[i].Some?
    ensures MinOf(vs).Some? ==> exists i :: 0 <= i < |vs| && vs[i] == MinOf(vs)
    ensures MinOf(vs).Some? ==> forall i :: 0 <= i < |vs| && vs[i].Some? ==> MinOf(vs).value <= vs[i].value
  {
    if |vs| > 0 {
      MinOfFacts(vs[1..]);
      assert forall i :: 1 <= i < |vs| ==> vs[i] == vs[1..][i - 1];
      if MinOf(vs[1..]).Some? {
        var j :| 0 <= j < |vs| - 1 && vs[1..][j] == MinOf(vs[1..]);
        assert vs[j + 1] == MinOf(vs[1..]);
      }
    }
  }

  lemma {:induction false} MinBelowMax(vs: seq<Option<int>>)
    requires MaxOf(vs).Some?
    ensures MinOf(vs).Some? && MinOf(vs).value <= MaxOf(vs).value
  {
    MaxOfFacts(vs);
    MinOfFacts(vs);
    var i :| 0 <= i < |vs| && vs[i].Some?;
    assert MinOf(vs).value <= vs[i].value <= MaxOf(vs).value;
  }

  /** `MAX(metric) - MIN(metric)` over a group: NULL when the group has no value, never negative. */
  function Spread(vs: seq<Option<int>>): (d: Option<int>)
    ensures d.Some? ==> d.value >= 0
  {
    var hi, lo := MaxOf(vs), MinOf(vs);
    if hi.None? then None
    else
      MinBelowMax(vs);
      Some(hi.value - lo.value)
  }

  /** The spread is NULL exactly when every value is, and bounds the difference of any two values. */
  lemma {:induction false} SpreadFacts(vs: seq<Option<int>>)
    ensures Spread(vs).Some? <==> exists i :: 0 <= i < |vs| && vs[i].Some?
    ensures Spread(vs).Some? ==> forall i, j :: 0 <= i < |vs| && 0 <= j < |vs| && vs[i].Some? && vs[j].Some? ==> vs[i].value - vs[j].value <= Spread(vs).value
  {
    MaxOfFacts(vs);
    MinOfFacts(vs);
  }

  /** ROUND(x, 1) of a value held in hundredths, giving tenths: half away from zero. */
  function Round1(c: int): (t: int)
    ensures c >= 0 ==> t >= 0 && 10 * t - 5 <= c < 10 * t + 5
    ensures c < 0 ==> t <= 0 && 10 * t - 5 < c <= 10 * t + 5
  {
    if c >= 0 then (c + 5) / 10 else -((-c + 5) / 10)
  }

  /** Rounding to tenths keeps the order of values. */
  lemma {:induction false} Round1Monotone(a: int, b: int)
    requires a <= b
    ensures Round1(a) <= Round1(b)
  {
  }
}
