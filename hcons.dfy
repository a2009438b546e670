/** The `/hconsumption` route: the hourly query over `modbus_data`, the per-hour
    accumulation of rounded differences into a dictionary, and the re-rounded
    response. An hour bucket is represented by its first second; its key in the
    JSON answer is that instant rendered as `YYYY-MM-DD HH:00:00`. */
module HourlyConsumption {
  import opened Text
  import opened Clock
  import opened Readings
  import opened Dict

  /** One row of the query: hour bucket, meter, and `MAX(kWh) - MIN(kWh)` (hundredths, NULL as None). */
  datatype HourRow = HourRow(hour: int, meter: int, diff: Option<int>)

  /** `DATE_FORMAT(timestamp, '%Y-%m-%d %H:00:00')`, as the instant it names: the start of the reading's hour. */
  function HourOf(r: Reading): int { r.ts - r.ts % SecondsPerHour }

  /** The bucket is the hour containing the reading; read as a date, it keeps the reading's day and hour. */
  lemma {:induction false} HourOfIsStartOfHour(r: Reading)
    ensures HourOf(r) == StartOfHour(r.ts)
  {
  }

  predicate StrictlyIncreasing(xs: seq<int>)
  {
    forall i, j :: 0 <= i < j < |xs| ==> xs[i] < xs[j]
  }

  /** A head below every element of an increasing tail keeps it increasing. */
  lemma {:induction false} ConsStrict(a: int, r: seq<int>)
    requires StrictlyIncreasing(r)
    requires forall y :: y in r ==> a < y
    ensures StrictlyIncreasing([a] + r)
  {
    var s := [a] + r;
    forall i, j | 0 <= i < j < |s| ensures s[i] < s[j] {
      assert s[j] == r[j - 1];
      if i > 0 {
        assert s[i] == r[i - 1];
      } else {
        assert r[j - 1] in r;
      }
    }
  }

  function Insert(xs: seq<int>, x: int): (ys: seq<int>)
    requires StrictlyIncreasing(xs)
    ensures StrictlyIncreasing(ys)
    ensures forall y :: y in ys <==> y in xs || y == x
  {
    if |xs| == 0 then [x]
    else if x < xs[0] then
      assert forall y :: y in xs ==> x < y by {
        assert forall i :: 0 <= i < |xs| ==> xs[0] <= xs[i];
      }
      ConsStrict(x, xs);
      [x] + xs
    else if x == xs[0] then xs
    else
      var tail := xs[1..];
      assert StrictlyIncreasing(tail) by {
        forall i, j | 0 <= i < j < |tail| ensures tail[i] < tail[j] {
          assert tail[i] == xs[i + 1] && tail[j] == xs[j + 1];
        }
      }
      assert forall y :: y in tail ==> xs[0] < y by {
        forall y | y in tail ensures xs[0] < y {
          var k :| 0 <= k < |tail| && tail[k] == y;
          assert xs[k + 1] == y;
        }
      }
      var rest := Insert(tail, x);
      ConsStrict(xs[0], rest);
      assert xs == [xs[0]] + tail;
      [xs[0]] + rest
  }

  /** The distinct hour buckets of the rows, ascending: the `GROUP BY ... hour` keys in `ORDER BY hour ASC`. */
  function Hours(w: seq<Reading>): (hs: seq<int>)
    ensures StrictlyIncreasing(hs)
    ensures forall h :: h in hs <==> exists i :: 0 <= i < |w| && HourOf(w[i]) == h
  {
    if |w| == 0 then []
    else
      var rest := Hours(w[1..]);
      assert forall i :: 1 <= i < |w| ==> w[i] == w[1..][i - 1];
      Insert(rest, HourOf(w[0]))
  }

  /** The readings of one `(energy_meter_id, hour)` group, in row order. */
  function Group(w: seq<Reading>, m: int, h: int): (g: seq<Reading>)
    ensures forall r :: r in g <==> r in w && r.meter == m && HourOf(r) == h
  {
    if |w| == 0 then []
    else if w[0].meter == m && HourOf(w[0]) == h then [w[0]] + Group(w[1..], m, h)
    else Group(w[1..], m, h)
  }

  /** The rows of one hour bucket: one per meter `m..11` that has a reading in that hour. */
  function MeterRows(w: seq<Reading>, h: int, m: int): seq<HourRow>
    requires 1 <= m <= 12
    decreases 12 - m
  {
    if m == 12 then []
    else
      var g := Group(w, m, h);
      (if |g| > 0 then [HourRow(h, m, Spread(Column(g, KWh)))] else []) + MeterRows(w, h, m + 1)
  }

  function HourBlocks(w: seq<Reading>, hs: seq<int>): seq<HourRow>
  {
    if |hs| == 0 then [] else MeterRows(w, hs[0], 1) + HourBlocks(w, hs[1..])
  }

  /** The result set of the hourly query of backend/routes/hcons.js. */
  function QueryHourly(rs: seq<Reading>, start: int, end: int): seq<HourRow>
  {
    var w := Window(rs, start, end);
    HourBlocks(w, Hours(w))
  }

  // ---------------------------------------------------------------------------
  // The accumulation `acc[hour] = (acc[hour] || 0) + parseFloat(toFixed(1)(diff || 0))`.

  /** One row's contribution, in tenths: a NULL difference counts as 0. */
  function Contribution(row: HourRow): int
  {
    Round1(if row.diff.Some? then row.diff.value else 0)
  }

  function Or0(v: Option<int>): int { if v.Some? then v.value else 0 }

  /** The object the reduce builds from the rows, in insertion order, values in tenths. */
  function RowsTotal(rows: seq<HourRow>): seq<Entry<int, int>>
  {
    if |rows| == 0 then []
    else
      var acc := RowsTotal(rows[..|rows| - 1]);
      var row := rows[|rows| - 1];
      Put(acc, row.hour, Or0(Get(acc, row.hour)) + Contribution(row))
  }

  method AccumulateHourly(rows: seq<HourRow>) returns (acc: seq<Entry<int, int>>)
    ensures acc == RowsTotal(rows)
  {
    acc := [];
    var i := 0;
    while i < |rows|
      invariant 0 <= i <= |rows|
      invariant acc == RowsTotal(rows[..i])
    {
      var row := rows[i];
      assert rows[..i + 1][..i] == rows[..i];
      acc := Put(acc, row.hour, Or0(Get(acc, row.hour)) + Contribution(row));
      i := i + 1;
    }
    assert rows[..i] == rows;
  }

  /** The reference sum: the contributions of the rows of hour `h`. */
  function SumFor(rows: seq<HourRow>, h: int): int
  {
    if |rows| == 0 then 0
    else (if rows[0].hour == h then Contribution(rows[0]) else 0) + SumFor(rows[1..], h)
  }

  lemma {:induction false} SumForAppend(a: seq<HourRow>, b: seq<HourRow>, h: int)
    ensures SumFor(a + b, h) == SumFor(a, h) + SumFor(b, h)
  {
    if |a| > 0 {
      assert (a + b)[1..] == a[1..] + b;
      SumForAppend(a[1..], b, h);
    } else {
      assert a + b == b;
    }
  }

  /** The object has a key for exactly the hours that have rows, no key twice, and each value is that hour's sum. */
  lemma {:induction false} RowsTotalMeaning(rows: seq<HourRow>)
    ensures DistinctKeys(RowsTotal(rows))
    ensures forall h :: Get(RowsTotal(rows), h).Some? <==> exists i :: 0 <= i < |rows| && rows[i].hour == h
    ensures forall h :: Get(RowsTotal(rows), h).Some? ==> Get(RowsTotal(rows), h).value == SumFor(rows, h)
  {
    if |rows| > 0 {
      var n := |rows|;
      var front, last := rows[..n - 1], rows[n - 1];
      RowsTotalMeaning(front);
      var acc := RowsTotal(front);
      var v := Or0(Get(acc, last.hour)) + Contribution(last);
      assert RowsTotal(rows) == Put(acc, last.hour, v);
      PutKeepsKeysDistinct(acc, last.hour, v);
      forall h ensures Get(Put(acc, last.hour, v), h) == if h == last.hour then Some(v) else Get(acc, h) {
        PutGet(acc, last.hour, v, h);
      }
      assert rows == front + [last];
      forall h ensures SumFor(rows, h) == SumFor(front, h) + (if last.hour == h then Contribution(last) else 0) {
        SumForAppend(front, [last], h);
      }
      forall h | Get(acc, h).None? ensures SumFor(front, h) == 0 {
        SumForAbsent(front, h);
      }
      forall i | 0 <= i < n - 1 ensures rows[i] == front[i] { }
    }
  }

  /** A key above every key of an object with ascending keys, appended, keeps them ascending. */
  lemma {:induction false} AppendAscending(acc: seq<Entry<int, int>>, k: int, v: int)
    requires StrictlyIncreasing(Keys(acc))
    requires forall i :: 0 <= i < |acc| ==> acc[i].key < k
    ensures StrictlyIncreasing(Keys(acc + [Entry(k, v)]))
  {
    var ka := Keys(acc);
    KeysAppend(acc, Entry(k, v));
    var ks := ka + [k];
    forall i, j | 0 <= i < j < |ks| ensures ks[i] < ks[j] {
      assert ks[i] == ka[i] && ka[i] == acc[i].key;
      if j < |ka| {
        assert ks[j] == ka[j];
      }
    }
  }

  predicate HoursAscending(rows: seq<HourRow>)
  {
    forall i, j :: 0 <= i < j < |rows| ==> rows[i].hour <= rows[j].hour
  }

  lemma {:induction false} FrontAscending(rows: seq<HourRow>)
    requires |rows| > 0 && HoursAscending(rows)
    ensures HoursAscending(rows[..|rows| - 1])
  {
    var front := rows[..|rows| - 1];
    forall i, j | 0 <= i < j < |front| ensures front[i].hour <= front[j].hour {
      assert front[i] == rows[i] && front[j] == rows[j];
    }
  }

  /** Assigning a key keeps the keys ascending when a new key comes above all the others. */
  lemma {:induction false} PutAscending(acc: seq<Entry<int, int>>, k: int, v: int)
    requires StrictlyIncreasing(Keys(acc))
    requires Get(acc, k).None? ==> forall i :: 0 <= i < |acc| ==> acc[i].key < k
    ensures StrictlyIncreasing(Keys(Put(acc, k, v)))
  {
    PutShape(acc, k, v);
    if Get(acc, k).None? {
      AppendAscending(acc, k, v);
    }
  }

  /** Rows in ascending hour order give an object whose keys ascend. */
  lemma {:induction false} RowsTotalAscending(rows: seq<HourRow>)
    requires HoursAscending(rows)
    ensures StrictlyIncreasing(Keys(RowsTotal(rows)))
  {
    if |rows| > 0 {
      var n := |rows|;
      var front, last := rows[..n - 1], rows[n - 1];
      FrontAscending(rows);
      RowsTotalAscending(front);
      var acc := RowsTotal(front);
      var v := Or0(Get(acc, last.hour)) + Contribution(last);
      assert RowsTotal(rows) == Put(acc, last.hour, v);
      if Get(acc, last.hour).None? {
        LastHourAbove(rows);
      }
      PutAscending(acc, last.hour, v);
    }
  }

  /** Every key already in the object belongs to an earlier row, so with sorted rows it is at most the last hour. */
  lemma {:induction false} LastHourAbove(rows: seq<HourRow>)
    requires |rows| > 0
    requires HoursAscending(rows)
    requires Get(RowsTotal(rows[..|rows| - 1]), rows[|rows| - 1].hour).None?
    ensures var acc := RowsTotal(rows[..|rows| - 1]);
      forall i :: 0 <= i < |acc| ==> acc[i].key < rows[|rows| - 1].hour
  {
    var n := |rows|;
    var front := rows[..n - 1];
    var acc := RowsTotal(front);
    RowsTotalMeaning(front);
    forall i | 0 <= i < |acc| ensures acc[i].key < rows[n - 1].hour {
      assert Get(acc, acc[i].key).Some?;
      var j :| 0 <= j < n - 1 && front[j].hour == acc[i].key;
      assert rows[j].hour <= rows[n - 1].hour;
    }
  }

  lemma {:induction false} SumForAbsent(rows: seq<HourRow>, h: int)
    requires forall i :: 0 <= i < |rows| ==> rows[i].hour != h
    ensures SumFor(rows, h) == 0
  {
    if |rows| > 0 {
      SumForAbsent(rows[1..], h);
    }
  }

  // ---------------------------------------------------------------------------
  // What the query and the reduce compute together.

  /** The hour's total in tenths: over meters `m..11` with a reading in that hour, ROUND-to-tenths of MAX-MIN, NULL as 0. */
  function MeterSum(w: seq<Reading>, h: int, m: int): nat
    requires 1 <= m <= 12
    decreases 12 - m
  {
    if m == 12 then 0
    else
      var g := Group(w, m, h);
      (if |g| > 0 then Round1(var d := Spread(Column(g, KWh)); if d.Some? then d.value else 0) else 0)
        + MeterSum(w, h, m + 1)
  }

  /** A row of the hourly query: a `(meter, hour)` group of meters 1..11 and its MAX-MIN. */
  predicate IsGroupRow(w: seq<Reading>, row: HourRow)
  {
    1 <= row.meter <= 11 && |Group(w, row.meter, row.hour)| > 0
    && row.diff == Spread(Column(Group(w, row.meter, row.hour), KWh))
  }

  lemma {:induction false} MeterRowsShape(w: seq<Reading>, h: int, m: int)
    requires 1 <= m <= 12
    ensures forall row :: row in MeterRows(w, h, m) ==> row.hour == h && IsGroupRow(w, row)
    decreases 12 - m
  {
    if m < 12 {
      MeterRowsShape(w, h, m + 1);
    }
  }

  lemma {:induction false} MeterRowsSum(w: seq<Reading>, h: int, m: int, h': int)
    requires 1 <= m <= 12
    ensures SumFor(MeterRows(w, h, m), h') == if h' == h then MeterSum(w, h, m) else 0
    decreases 12 - m
  {
    if m < 12 {
      MeterRowsSum(w, h, m + 1, h');
      var g := Group(w, m, h);
      var head: seq<HourRow> := if |g| > 0 then [HourRow(h, m, Spread(Column(g, KWh)))] else [];
      assert MeterRows(w, h, m) == head + MeterRows(w, h, m + 1);
      SumForAppend(head, MeterRows(w, h, m + 1), h');
    }
  }

  lemma {:induction false} MeterRowsNonEmpty(w: seq<Reading>, h: int, m: int, r: Reading)
    requires 1 <= m <= 12
    requires r in w && HourOf(r) == h && m <= r.meter <= 11
    ensures |MeterRows(w, h, m)| > 0
    decreases 12 - m
  {
    var g := Group(w, m, h);
    var head: seq<HourRow> := if |g| > 0 then [HourRow(h, m, Spread(Column(g, KWh)))] else [];
    assert MeterRows(w, h, m) == head + MeterRows(w, h, m + 1);
    if r.meter == m {
      assert r in g;
      assert |head| == 1;
    } else {
      MeterRowsNonEmpty(w, h, m + 1, r);
    }
  }

  lemma {:induction false} HourBlocksMembers(w: seq<Reading>, hs: seq<int>)
    ensures forall row :: row in HourBlocks(w, hs) ==> row.hour in hs && IsGroupRow(w, row)
  {
    if |hs| > 0 {
      var tail := hs[1..];
      HourBlocksMembers(w, tail);
      MeterRowsShape(w, hs[0], 1);
      var a: seq<HourRow>, b: seq<HourRow> := MeterRows(w, hs[0], 1), HourBlocks(w, tail);
      assert HourBlocks(w, hs) == a + b;
      assert forall x :: x in tail ==> x in hs;
    }
  }

  /** One hour's rows followed by ordered rows of later hours are ordered. */
  lemma {:induction false} ConcatOrdered(a: seq<HourRow>, b: seq<HourRow>, h: int)
    requires forall i :: 0 <= i < |a| ==> a[i].hour == h
    requires forall j :: 0 <= j < |b| ==> h < b[j].hour
    requires HoursAscending(b)
    ensures HoursAscending(a + b)
  {
    forall i, j | 0 <= i < j < |a + b| ensures (a + b)[i].hour <= (a + b)[j].hour {
      if j < |a| {
        assert (a + b)[i] == a[i] && (a + b)[j] == a[j];
      } else if i < |a| {
        assert (a + b)[i] == a[i] && (a + b)[j] == b[j - |a|];
      } else {
        assert (a + b)[i] == b[i - |a|] && (a + b)[j] == b[j - |a|];
      }
    }
  }

  lemma {:induction false} MeterRowsHours(w: seq<Reading>, h: int, m: int)
    requires 1 <= m <= 12
    ensures forall i :: 0 <= i < |MeterRows(w, h, m)| ==> MeterRows(w, h, m)[i].hour == h
    decreases 12 - m
  {
    if m < 12 {
      MeterRowsHours(w, h, m + 1);
      var g := Group(w, m, h);
      var head: seq<HourRow> := if |g| > 0 then [HourRow(h, m, Spread(Column(g, KWh)))] else [];
      var rest := MeterRows(w, h, m + 1);
      assert MeterRows(w, h, m) == head + rest;
      forall i | 0 <= i < |head + rest| ensures (head + rest)[i].hour == h {
        if i >= |head| {
          assert (head + rest)[i] == rest[i - |head|];
        }
      }
    }
  }

  lemma {:induction false} HourBlocksOrdered(w: seq<Reading>, hs: seq<int>)
    requires StrictlyIncreasing(hs)
    ensures HoursAscending(HourBlocks(w, hs))
    ensures forall j :: 0 <= j < |HourBlocks(w, hs)| ==> HourBlocks(w, hs)[j].hour in hs
  {
    if |hs| > 0 {
      var tail := hs[1..];
      assert StrictlyIncreasing(tail) by {
        forall i, j | 0 <= i < j < |tail| ensures tail[i] < tail[j] {
          assert tail[i] == hs[i + 1] && tail[j] == hs[j + 1];
        }
      }
      HourBlocksOrdered(w, tail);
      MeterRowsHours(w, hs[0], 1);
      var a: seq<HourRow>, b: seq<HourRow> := MeterRows(w, hs[0], 1), HourBlocks(w, tail);
      assert HourBlocks(w, hs) == a + b;
      forall j | 0 <= j < |b| ensures hs[0] < b[j].hour && b[j].hour in hs {
        var k :| 0 <= k < |tail| && tail[k] == b[j].hour;
        assert hs[k + 1] == b[j].hour;
      }
      ConcatOrdered(a, b, hs[0]);
      forall j | 0 <= j < |a + b| ensures (a + b)[j].hour in hs {
        if j < |a| {
          assert (a + b)[j] == a[j];
        } else {
          assert (a + b)[j] == b[j - |a|];
        }
      }
    }
  }

  lemma {:induction false} HourBlocksShape(w: seq<Reading>, hs: seq<int>)
    requires StrictlyIncreasing(hs)
    ensures forall row :: row in HourBlocks(w, hs) ==> row.hour in hs && IsGroupRow(w, row)
    ensures HoursAscending(HourBlocks(w, hs))
  {
    HourBlocksMembers(w, hs);
    HourBlocksOrdered(w, hs);
  }

  lemma {:induction false} HourBlocksSum(w: seq<Reading>, hs: seq<int>, h: int)
    requires StrictlyIncreasing(hs)
    ensures SumFor(HourBlocks(w, hs), h) == if h in hs then MeterSum(w, h, 1) else 0
  {
    if |hs| > 0 {
      var tail := hs[1..];
      HourBlocksSum(w, tail, h);
      MeterRowsSum(w, hs[0], 1, h);
      SumForAppend(MeterRows(w, hs[0], 1), HourBlocks(w, tail), h);
      assert forall x :: x in tail ==> hs[0] < x;
    }
  }

  lemma {:induction false} HourBlocksCover(w: seq<Reading>, hs: seq<int>, r: Reading)
    requires r in w && HourOf(r) in hs && 1 <= r.meter <= 11
    ensures exists row :: row in HourBlocks(w, hs) && row.hour == HourOf(r)
  {
    var a := MeterRows(w, hs[0], 1);
    assert HourBlocks(w, hs) == a + HourBlocks(w, hs[1..]);
    if HourOf(r) == hs[0] {
      MeterRowsNonEmpty(w, hs[0], 1, r);
      MeterRowsShape(w, hs[0], 1);
      assert a[0] in a;
    } else {
      HourBlocksCover(w, hs[1..], r);
      var row :| row in HourBlocks(w, hs[1..]) && row.hour == HourOf(r);
      assert row in HourBlocks(w, hs);
    }
  }

  lemma {:induction false} KeptHourHasEntry(rs: seq<Reading>, start: int, end: int, r: Reading)
    requires r in rs && InWindow(r, start, end)
    ensures Get(RowsTotal(QueryHourly(rs, start, end)), HourOf(r)).Some?
  {
    var w := Window(rs, start, end);
    var hs := Hours(w);
    var rows := HourBlocks(w, hs);
    assert r in w;
    var k :| 0 <= k < |w| && w[k] == r;
    assert HourOf(r) in hs;
    HourBlocksCover(w, hs, r);
    var row :| row in rows && row.hour == HourOf(r);
    var i :| 0 <= i < |rows| && rows[i] == row;
    RowsTotalMeaning(rows);
  }

  lemma {:induction false} EntryHasKeptReading(rs: seq<Reading>, start: int, end: int, h: int)
    requires Get(RowsTotal(QueryHourly(rs, start, end)), h).Some?
    ensures exists r :: r in rs && InWindow(r, start, end) && HourOf(r) == h
  {
    var w := Window(rs, start, end);
    var hs := Hours(w);
    var rows := HourBlocks(w, hs);
    RowsTotalMeaning(rows);
    var i :| 0 <= i < |rows| && rows[i].hour == h;
    HourBlocksShape(w, hs);
    assert rows[i] in rows;
    var k :| 0 <= k < |w| && HourOf(w[k]) == h;
    assert w[k] in w;
  }

  /** An hour has an entry exactly when some kept reading falls in it. */
  lemma {:induction false} HourlyKeys(rs: seq<Reading>, start: int, end: int, h: int)
    ensures Get(RowsTotal(QueryHourly(rs, start, end)), h).Some?
      <==> exists r :: r in rs && InWindow(r, start, end) && HourOf(r) == h
  {
    if exists r :: r in rs && InWindow(r, start, end) && HourOf(r) == h {
      var r :| r in rs && InWindow(r, start, end) && HourOf(r) == h;
      KeptHourHasEntry(rs, start, end, r);
    }
    if Get(RowsTotal(QueryHourly(rs, start, end)), h).Some? {
      EntryHasKeptReading(rs, start, end, h);
    }
  }

  /** Each hour's entry is the sum over meters 1..11 of that hour's rounded MAX-MIN. */
  lemma {:induction false} HourlyValues(rs: seq<Reading>, start: int, end: int, h: int)
    requires Get(RowsTotal(QueryHourly(rs, start, end)), h).Some?
    ensures Get(RowsTotal(QueryHourly(rs, start, end)), h).value == MeterSum(Window(rs, start, end), h, 1)
  {
    var w := Window(rs, start, end);
    var hs := Hours(w);
    var rows := HourBlocks(w, hs);
    HourBlocksShape(w, hs);
    HourBlocksSum(w, hs, h);
    RowsTotalMeaning(rows);
    var i :| 0 <= i < |rows| && rows[i].hour == h;
    assert rows[i] in rows;
  }

  /** The object's keys come out in ascending hour order, each once. */
  lemma {:induction false} HourlyKeysAscending(rs: seq<Reading>, start: int, end: int)
    ensures StrictlyIncreasing(Keys(RowsTotal(QueryHourly(rs, start, end))))
  {
    QueryRows(rs, start, end);
    RowsTotalAscending(QueryHourly(rs, start, end));
  }

  /** `ORDER BY hour ASC`, and every row is one `(meter, hour)` group of meters 1..11 with its MAX-MIN. */
  lemma {:induction false} QueryRows(rs: seq<Reading>, start: int, end: int)
    ensures var rows := QueryHourly(rs, start, end);
      HoursAscending(rows)
    ensures var rows := QueryHourly(rs, start, end);
      forall row :: row in rows ==> IsGroupRow(Window(rs, start, end), row)
  {
    var w := Window(rs, start, end);
    HourBlocksShape(w, Hours(w));
  }
}

/** The `/hconsumption` handler: the totals re-rounded to one decimal and keyed by
    hour string, or the fixed error body when the query fails. */
module HourlyRoute {
  import opened Text
  import opened Clock
  import opened Readings
  import opened Dict
  import opened HourlyConsumption

  /** `toFixed(1)` of a non-negative tenths value: integer part, a point, one decimal. */
  function UnsignedTenths(t: nat): (s: string)
    ensures |s| >= 3 && s[|s| - 2] == '.' && AllDigits(s[..|s| - 2]) && IsDigit(s[|s| - 1])
    ensures DigitsValue(s[..|s| - 2]) * 10 + DigitValue(s[|s| - 1]) == t
  {
    var s := NatToString(t / 10) + "." + [DigitChar(t % 10)];
    NatToStringRoundTrip(t / 10);
    assert s[..|s| - 2] == NatToString(t / 10);
    s
  }

  /** `toFixed(1)` of a tenths value, with a minus sign for negatives. */
  function FormatTenths(t: int): (s: string)
    ensures t >= 0 ==> s == UnsignedTenths(t)
    ensures t < 0 ==> s == "-" + UnsignedTenths(-t)
  {
    if t < 0 then "-" + UnsignedTenths(-t) else UnsignedTenths(t)
  }

  /** The key of an hour bucket in the JSON answer. */
  function HourKey(h: int): string { FormatDateTime(Breakdown(h)) }

  /** Distinct hours have distinct keys, so no entry of the answer overwrites another. */
  lemma {:induction false} HourKeyInjective(a: int, b: int)
    ensures HourKey(a) == HourKey(b) ==> a == b
  {
    ParseFormatRoundTrip(Breakdown(a));
    ParseFormatRoundTrip(Breakdown(b));
    BreakdownInjective(a, b);
  }

  /** The second reduce: every hourly total re-rendered with one decimal, keys and order unchanged. */
  method RoundEntries(totals: seq<Entry<int, int>>) returns (out: seq<Entry<int, string>>)
    ensures |out| == |totals|
    ensures forall i :: 0 <= i < |totals| ==> out[i] == Entry(totals[i].key, FormatTenths(totals[i].val))
  {
    out := [];
    for i := 0 to |totals|
      invariant |out| == i
      invariant forall k :: 0 <= k < i ==> out[k] == Entry(totals[k].key, FormatTenths(totals[k].val))
    {
      out := out + [Entry(totals[i].key, FormatTenths(totals[i].val))];
    }
  }

  /** The JSON object: each hour bucket under its `YYYY-MM-DD HH:00:00` key, in the same order. */
  function JsonObject(d: seq<Entry<int, string>>): (j: seq<Entry<string, string>>)
    ensures |j| == |d| && forall i :: 0 <= i < |d| ==> j[i] == Entry(HourKey(d[i].key), d[i].val)
    ensures DistinctKeys(d) ==> DistinctKeys(j)
  {
    HourKeysInjective();
    seq(|d|, i requires 0 <= i < |d| => Entry(HourKey(d[i].key), d[i].val))
  }

  lemma {:induction false} HourKeysInjective()
    ensures forall a, b :: HourKey(a) == HourKey(b) ==> a == b
  {
    forall a, b ensures HourKey(a) == HourKey(b) ==> a == b {
      HourKeyInjective(a, b);
    }
  }

  datatype Reply = Hourly(consumptionData: seq<Entry<string, string>>) | Failed(error: string)

  function Status(r: Reply): nat
  {
    if r.Hourly? then 200 else 500
  }

  /** GET /hconsumption: the hourly totals under their hour keys, or 500 when the query fails. */
  method HConsumption(db: Fetched, start: int, end: int) returns (reply: Reply)
    ensures (Status(reply) == 200) == db.Rows? && (Status(reply) == 500) == db.DbError?
    ensures db.DbError? ==> reply == Failed("Database query failed")
    ensures db.Rows? ==> reply.Hourly? && DistinctKeys(reply.consumptionData)
    ensures db.Rows? ==> reply.Hourly? && var totals := RowsTotal(QueryHourly(db.readings, start, end));
      |reply.consumptionData| == |totals| && forall i :: 0 <= i < |totals| ==>
        reply.consumptionData[i] == Entry(HourKey(totals[i].key), FormatTenths(totals[i].val))
  {
    match db
    case DbError(_) =>
      reply := Failed("Database query failed");
    case Rows(readings) =>
      var rows := QueryHourly(readings, start, end);
      var totals := AccumulateHourly(rows);
      var rounded := RoundEntries(totals);
      RowsTotalMeaning(rows);
      assert DistinctKeys(rounded) by {
        assert forall i :: 0 <= i < |totals| ==> rounded[i].key == totals[i].key;
      }
      reply := Hourly(JsonObject(rounded));
  }
}
