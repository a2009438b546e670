/** The `/lconskWh` and `/lconskVAh` routes: the total consumption over a time range,
    as the sum over meters 1..11 of each meter's MAX-MIN rounded to tenths. */
module TotalConsumption {
  import opened Text
  import opened Readings

  /** The rows of one `energy_meter_id` group, in row order. */
  function MeterGroup(w: seq<Reading>, m: int): (g: seq<Reading>)
    ensures forall r :: r in g <==> r in w && r.meter == m
  {
    if |w| == 0 then []
    else if w[0].meter == m then [w[0]] + MeterGroup(w[1..], m)
    else MeterGroup(w[1..], m)
  }

  /** `ROUND(MAX(x) - MIN(x), 1)` of one meter's group in tenths: NULL when the meter has no value. */
  function MeterDelta(w: seq<Reading>, m: int, metric: Metric): (d: Option<int>)
    ensures d.Some? ==> d.value >= 0
  {
    var g := MeterGroup(w, m);
    var s := Spread(Column(g, metric));
    if s.Some? then Some(Round1(s.value)) else None
  }

  /** A meter has a delta exactly when one of its rows carries a value of the metric. */
  lemma {:induction false} MeterDeltaPresent(w: seq<Reading>, m: int, metric: Metric)
    ensures MeterDelta(w, m, metric).Some? <==> exists r :: r in w && r.meter == m && ValueOf(r, metric).Some?
  {
    var g := MeterGroup(w, m);
    var col := Column(g, metric);
    SpreadFacts(col);
    if MeterDelta(w, m, metric).Some? {
      var i :| 0 <= i < |col| && col[i].Some?;
      assert col[i] == ValueOf(g[i], metric);
      assert g[i] in g;
    } else {
      forall r | r in w && r.meter == m ensures ValueOf(r, metric).None? {
        assert r in g;
        var i :| 0 <= i < |g| && g[i] == r;
        assert col[i] == ValueOf(r, metric);
      }
    }
  }

  /** SQL addition inside SUM: NULL operands are skipped. */
  function AddSkippingNull(a: Option<int>, b: Option<int>): Option<int>
  {
    if a.None? then b else if b.None? then a else Some(a.value + b.value)
  }

  /** The rounded delta of each meter 1..11, meter `i + 1` at index `i`: the rows the inner query groups. */
  function Deltas(w: seq<Reading>, metric: Metric): (ds: seq<Option<int>>)
    ensures |ds| == 11
    ensures NonNegative(ds)
  {
    seq(11, i requires 0 <= i < 11 => MeterDelta(w, i + 1, metric))
  }

  predicate NonNegative(ds: seq<Option<int>>)
  {
    forall i :: 0 <= i < |ds| && ds[i].Some? ==> ds[i].value >= 0
  }

  /** SQL `SUM`: NULL operands are skipped; NULL when every operand is NULL. */
  function SumSkippingNull(ds: seq<Option<int>>): Option<int>
  {
    if |ds| == 0 then None else AddSkippingNull(ds[0], SumSkippingNull(ds[1..]))
  }

  /** `SUM(delta)` over the groups of meters 1..11. */
  function SumDeltas(w: seq<Reading>, metric: Metric): Option<int>
  {
    SumSkippingNull(Deltas(w, metric))
  }

  /** The query and `rows[0]?.consumption || 0`: a NULL sum reads as 0. */
  function Consumption(rs: seq<Reading>, start: int, end: int, metric: Metric): int
  {
    var s := SumDeltas(Window(rs, start, end), metric);
    if s.Some? then s.value else 0
  }

  /** A plain sum in which a missing value counts 0. */
  function SumOr0(ds: seq<Option<int>>): int
  {
    if |ds| == 0 then 0 else (if ds[0].Some? then ds[0].value else 0) + SumOr0(ds[1..])
  }

  /** The reference sum: every meter 1..11 contributes its rounded delta, or 0 without one. */
  function ZeroSum(w: seq<Reading>, metric: Metric): int
  {
    SumOr0(Deltas(w, metric))
  }

  predicate AllNull(ds: seq<Option<int>>)
  {
    forall i :: 0 <= i < |ds| ==> ds[i].None?
  }

  lemma {:induction false} TailNonNegative(ds: seq<Option<int>>)
    requires |ds| > 0 && NonNegative(ds)
    ensures NonNegative(ds[1..])
  {
    var tail := ds[1..];
    forall i | 0 <= i < |tail| && tail[i].Some? ensures tail[i].value >= 0 {
      assert tail[i] == ds[i + 1];
    }
  }

  /** Skipping NULLs and counting them 0 agree, except that all-NULL gives NULL. */
  lemma {:induction false} SkippingIsOr0(ds: seq<Option<int>>)
    ensures SumSkippingNull(ds).Some? ==> SumSkippingNull(ds).value == SumOr0(ds)
    ensures SumSkippingNull(ds).None? <==> AllNull(ds)
    ensures AllNull(ds) ==> SumOr0(ds) == 0
  {
    if |ds| > 0 {
      var tail := ds[1..];
      SkippingIsOr0(tail);
      assert AllNull(ds) <==> ds[0].None? && AllNull(tail) by {
        if ds[0].None? && AllNull(tail) {
          forall i | 0 <= i < |ds| ensures ds[i].None? {
            if i > 0 {
              assert ds[i] == tail[i - 1];
            }
          }
        }
        if AllNull(ds) {
          forall i | 0 <= i < |tail| ensures tail[i].None? {
            assert tail[i] == ds[i + 1];
          }
        }
      }
    }
  }

  /** A sum of non-negative values is at least each of them, and never negative. */
  lemma {:induction false} SumOr0Covers(ds: seq<Option<int>>, j: int)
    requires NonNegative(ds)
    ensures SumOr0(ds) >= 0
    ensures 0 <= j < |ds| && ds[j].Some? ==> SumOr0(ds) >= ds[j].value
  {
    if |ds| > 0 {
      var tail := ds[1..];
      TailNonNegative(ds);
      SumOr0Covers(tail, j - 1);
      if 0 < j < |ds| {
        assert tail[j - 1] == ds[j];
      }
    }
  }

  /** The `|| 0` default makes the total the plain sum over meters 1..11, a missing delta counting 0; never negative. */
  lemma {:induction false} ConsumptionIsSum(rs: seq<Reading>, start: int, end: int, metric: Metric)
    ensures Consumption(rs, start, end, metric) == ZeroSum(Window(rs, start, end), metric)
    ensures Consumption(rs, start, end, metric) >= 0
  {
    var ds := Deltas(Window(rs, start, end), metric);
    SkippingIsOr0(ds);
    SumOr0Covers(ds, 0);
  }

  /** The total is at least each single meter's rounded delta. */
  lemma {:induction false} ConsumptionCoversMeter(rs: seq<Reading>, start: int, end: int, k: int, metric: Metric)
    requires 1 <= k <= 11 && MeterDelta(Window(rs, start, end), k, metric).Some?
    ensures Consumption(rs, start, end, metric) >= MeterDelta(Window(rs, start, end), k, metric).value
  {
    ConsumptionIsSum(rs, start, end, metric);
    var ds := Deltas(Window(rs, start, end), metric);
    assert ds[k - 1] == MeterDelta(Window(rs, start, end), k, metric);
    SumOr0Covers(ds, k - 1);
  }

  /** With no reading of meters 1..11 inside the range, the total is 0. */
  lemma {:induction false} ConsumptionOfNothing(rs: seq<Reading>, start: int, end: int, metric: Metric)
    requires forall r :: r in rs ==> !InWindow(r, start, end)
    ensures Consumption(rs, start, end, metric) == 0
  {
    WindowOfNothing(rs, start, end);
    var ds := Deltas([], metric);
    forall i | 0 <= i < 11 ensures ds[i].None? {
      MeterDeltaPresent([], i + 1, metric);
    }
    SkippingIsOr0(ds);
  }

  lemma {:induction false} WindowOfNothing(rs: seq<Reading>, start: int, end: int)
    requires forall r :: r in rs ==> !InWindow(r, start, end)
    ensures Window(rs, start, end) == []
  {
    if |rs| > 0 {
      assert rs[0] in rs;
      assert forall r :: r in rs[1..] ==> r in rs;
      WindowOfNothing(rs[1..], start, end);
    }
  }

  lemma {:induction false} WindowAppendOutside(rs: seq<Reading>, r: Reading, start: int, end: int)
    requires !InWindow(r, start, end)
    ensures Window(rs + [r], start, end) == Window(rs, start, end)
  {
    if |rs| == 0 {
      assert [r][1..] == [];
    } else {
      assert (rs + [r])[1..] == rs[1..] + [r];
      WindowAppendOutside(rs[1..], r, start, end);
    }
  }

  /** A reading outside meters 1..11 or outside the inclusive range changes nothing. */
  lemma {:induction false} OutsideReadingIgnored(rs: seq<Reading>, r: Reading, start: int, end: int, metric: Metric)
    requires !(1 <= r.meter <= 11) || r.ts < start || r.ts > end
    ensures Consumption(rs + [r], start, end, metric) == Consumption(rs, start, end, metric)
  {
    WindowAppendOutside(rs, r, start, end);
  }

  // ---------------------------------------------------------------------------
  // The two routes.

  datatype Reply = Total(field: string, value: int) | Failure(error: string, details: string)

  function Status(r: Reply): nat
  {
    if r.Total? then 200 else 500
  }

  /** The JSON field each route answers with. */
  function FieldName(metric: Metric): (f: string)
    ensures (f == "consumptionkWh") == (metric == KWh) && (f == "consumptionkVAh") == (metric == KVAh)
  {
    match metric
    case KWh => "consumptionkWh"
    case KVAh => "consumptionkVAh"
  }

  /** GET /lconskWh and GET /lconskVAh: 200 with the total under the route's field, or 500 with the error's message. */
  function LConsumption(metric: Metric, db: Fetched, start: int, end: int): (reply: Reply)
    ensures (Status(reply) == 200) == db.Rows?
    ensures db.Rows? ==> reply.field == FieldName(metric) && reply.value >= 0
    ensures db.Rows? ==> reply.value == ZeroSum(Window(db.readings, start, end), metric)
    ensures db.DbError? ==> reply == Failure("Failed to calculate consumption", db.message)
  {
    match db
    case Rows(readings) =>
      ConsumptionIsSum(readings, start, end, metric);
      Total(FieldName(metric), Consumption(readings, start, end, metric))
    case DbError(message) => Failure("Failed to calculate consumption", message)
  }
}
