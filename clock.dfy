/** Time in the dashboard: instants are integer seconds of local wall-clock time
    counted from 1970-01-01 00:00:00 (the device's time-zone offset is folded in),
    calendar days are integers counted from the same day. This module gives the
    proleptic Gregorian breakdown of an instant, its inverse, and the
    `YYYY-MM-DD HH:mm:ss` rendering that every date picker reports. */
module Clock {
  import opened Text

  const SecondsPerDay: int := 86400
  const SecondsPerHour: int := 3600

  predicate IsLeap(y: int) { y % 4 == 0 && (y % 100 != 0 || y % 400 == 0) }

  function DaysInYear(y: int): (n: int)
    ensures n == 365 || n == 366
  {
    if IsLeap(y) then 366 else 365
  }

  function DaysInMonth(y: int, m: int): (n: int)
    requires 1 <= m <= 12
    ensures 28 <= n <= 31
  {
    if m == 2 then (if IsLeap(y) then 29 else 28)
    else if m == 4 || m == 6 || m == 9 || m == 11 then 30
    else 31
  }

  /** Days of year `y` before the first of month `m` (m == 13 gives the whole year). */
  function DaysBeforeMonth(y: int, m: int): (n: int)
    requires 1 <= m <= 13
    ensures n >= 0
  {
    if m == 1 then 0 else DaysBeforeMonth(y, m - 1) + DaysInMonth(y, m - 1)
  }

  lemma {:induction false} WholeYear(y: int)
    ensures DaysBeforeMonth(y, 13) == DaysInYear(y)
  {
    var f := if IsLeap(y) then 29 else 28;
    assert DaysBeforeMonth(y, 2) == 31;
    assert DaysBeforeMonth(y, 3) == 31 + f;
    assert DaysBeforeMonth(y, 4) == 62 + f;
    assert DaysBeforeMonth(y, 5) == 92 + f;
    assert DaysBeforeMonth(y, 6) == 123 + f;
    assert DaysBeforeMonth(y, 7) == 153 + f;
    assert DaysBeforeMonth(y, 8) == 184 + f;
    assert DaysBeforeMonth(y, 9) == 215 + f;
    assert DaysBeforeMonth(y, 10) == 245 + f;
    assert DaysBeforeMonth(y, 11) == 276 + f;
    assert DaysBeforeMonth(y, 12) == 306 + f;
  }

  datatype Date = Date(year: int, month: nat, day: nat)

  datatype DateTime = DateTime(year: int, month: nat, day: nat, hour: nat, minute: nat, second: nat)

  predicate ValidDate(d: Date)
  {
    1 <= d.month <= 12 && 1 <= d.day <= DaysInMonth(d.year, d.month)
  }

  predicate ValidDateTime(t: DateTime)
  {
    ValidDate(Date(t.year, t.month, t.day)) && t.hour < 24 && t.minute < 60 && t.second < 60
  }

  /** Days from 1970-01-01 to January 1st of year `y`. */
  function DaysBeforeYear(y: int): int
    decreases if y >= 1970 then y - 1970 else 1970 - y
  {
    if y == 1970 then 0
    else if y > 1970 then DaysBeforeYear(y - 1) + DaysInYear(y - 1)
    else DaysBeforeYear(y + 1) - DaysInYear(y)
  }

  /** The day number of a calendar date. */
  function DaysFromCivil(d: Date): int
    requires ValidDate(d)
  {
    DaysBeforeYear(d.year) + DaysBeforeMonth(d.year, d.month) + d.day - 1
  }

  function MonthWalk(y: int, m: int, z: int): (d: Date)
    requires 1 <= m <= 12 && 0 <= z
    requires DaysBeforeMonth(y, m) + z < DaysInYear(y)
    ensures ValidDate(d) && d.year == y
    ensures DaysFromCivil(d) == DaysBeforeYear(y) + DaysBeforeMonth(y, m) + z
    decreases 12 - m
  {
    WholeYear(y);
    if z < DaysInMonth(y, m) then Date(y, m, z + 1)
    else MonthWalk(y, m + 1, z - DaysInMonth(y, m))
  }

  function WalkForward(y: int, z: int): (d: Date)
    requires 0 <= z
    ensures ValidDate(d) && DaysFromCivil(d) == DaysBeforeYear(y) + z
    decreases z
  {
    if z < DaysInYear(y) then MonthWalk(y, 1, z)
    else WalkForward(y + 1, z - DaysInYear(y))
  }

  function WalkBack(y: int, z: int): (d: Date)
    requires z < 0
    ensures ValidDate(d) && DaysFromCivil(d) == DaysBeforeYear(y) + z
    decreases -z
  {
    var z' := z + DaysInYear(y - 1);
    if z' >= 0 then MonthWalk(y - 1, 1, z') else WalkBack(y - 1, z')
  }

  /** The calendar date of day number `z`; day 0 is 1970-01-01. */
  function CivilFromDays(z: int): (d: Date)
    ensures ValidDate(d) && DaysFromCivil(d) == z
  {
    if z >= 0 then WalkForward(1970, z) else WalkBack(1970, z)
  }

  lemma {:induction false} CivilFromDaysInjective(a: int, b: int)
    ensures CivilFromDays(a) == CivilFromDays(b) ==> a == b
  {
  }

  lemma {:induction false} DaysBeforeYearStep(y: int)
    ensures DaysBeforeYear(y + 1) == DaysBeforeYear(y) + DaysInYear(y)
  {
  }

  lemma {:induction false} DaysBeforeYearMonotone(a: int, b: int)
    requires a < b
    ensures DaysBeforeYear(a + 1) <= DaysBeforeYear(b)
    decreases b - a
  {
    if a + 1 < b {
      DaysBeforeYearMonotone(a, b - 1);
      DaysBeforeYearStep(b - 1);
    }
  }

  lemma {:induction false} DaysBeforeMonthMonotone(y: int, a: int, b: int)
    requires 1 <= a < b <= 13
    ensures DaysBeforeMonth(y, a + 1) <= DaysBeforeMonth(y, b)
    decreases b - a
  {
    if a + 1 < b {
      DaysBeforeMonthMonotone(y, a, b - 1);
    }
  }

  /** A valid date lies inside its year and inside its month. */
  lemma {:induction false} DayOfYearBounds(d: Date)
    requires ValidDate(d)
    ensures DaysBeforeMonth(d.year, d.month) + d.day - 1 < DaysBeforeMonth(d.year, d.month + 1)
    ensures DaysBeforeMonth(d.year, d.month + 1) <= DaysInYear(d.year)
  {
    WholeYear(d.year);
    if d.month < 12 {
      DaysBeforeMonthMonotone(d.year, d.month, 13);
    }
  }

  /** Day numbers follow the calendar order of valid dates. */
  lemma {:induction false} DaysFromCivilOrdered(a: Date, b: Date)
    requires ValidDate(a) && ValidDate(b)
    ensures a.year < b.year ==> DaysFromCivil(a) < DaysFromCivil(b)
    ensures a.year == b.year && a.month < b.month ==> DaysFromCivil(a) < DaysFromCivil(b)
    ensures a.year == b.year && a.month == b.month && a.day < b.day ==> DaysFromCivil(a) < DaysFromCivil(b)
  {
    DayOfYearBounds(a);
    if a.year < b.year {
      DaysBeforeYearStep(a.year);
      DaysBeforeYearMonotone(a.year, b.year);
    } else if a.year == b.year && a.month < b.month {
      if a.month + 1 < b.month {
        DaysBeforeMonthMonotone(a.year, a.month, b.month);
      }
    }
  }

  lemma {:induction false} DaysFromCivilInjective(a: Date, b: Date)
    requires ValidDate(a) && ValidDate(b)
    ensures DaysFromCivil(a) == DaysFromCivil(b) ==> a == b
  {
    DaysFromCivilOrdered(a, b);
    DaysFromCivilOrdered(b, a);
  }

  /** A valid date read as its day number and back is the same date. */
  lemma {:induction false} DaysFromCivilInverse(d: Date)
    requires ValidDate(d)
    ensures CivilFromDays(DaysFromCivil(d)) == d
  {
    DaysFromCivilInjective(CivilFromDays(DaysFromCivil(d)), d);
  }

  /** The calendar day an instant falls on (floor division: Dafny's / is Euclidean). */
  function DayOf(t: int): int { t / SecondsPerDay }

  /** `new Date(t)` read through getFullYear/getMonth()+1/getDate/getHours/getMinutes/getSeconds. */
  function Breakdown(t: int): (dt: DateTime)
    ensures ValidDateTime(dt)
  {
    var d := CivilFromDays(t / SecondsPerDay);
    var s := t % SecondsPerDay;
    DateTime(d.year, d.month, d.day, s / SecondsPerHour, (s % SecondsPerHour) / 60, s % 60)
  }

  /** The instant of a valid wall-clock reading. */
  function Compose(dt: DateTime): int
    requires ValidDateTime(dt)
  {
    DaysFromCivil(Date(dt.year, dt.month, dt.day)) * SecondsPerDay
      + dt.hour * SecondsPerHour + dt.minute * 60 + dt.second
  }

  lemma {:induction false} ComposeBreakdown(t: int)
    ensures Compose(Breakdown(t)) == t
  {
    var s := t % SecondsPerDay;
    assert s == (s / SecondsPerHour) * SecondsPerHour + ((s % SecondsPerHour) / 60) * 60 + s % 60;
  }

  lemma {:induction false} BreakdownInjective(a: int, b: int)
    ensures Breakdown(a) == Breakdown(b) ==> a == b
  {
    ComposeBreakdown(a);
    ComposeBreakdown(b);
  }

  /** A valid wall-clock reading read as an instant and broken down again is itself. */
  lemma {:induction false} BreakdownCompose(dt: DateTime)
    requires ValidDateTime(dt)
    ensures Breakdown(Compose(dt)) == dt
  {
    var d := Date(dt.year, dt.month, dt.day);
    DaysFromCivilInverse(d);
    BreakdownOf(DaysFromCivil(d), dt.hour, dt.minute, dt.second);
  }

  lemma {:induction false} DivModUnique(t: int, q: int, r: int, m: int)
    requires m == 60 || m == SecondsPerHour || m == SecondsPerDay
    requires 0 <= r < m && t == q * m + r
    ensures t / m == q && t % m == r
  {
    if m == 60 {
      assert t == q * 60 + r;
    } else if m == SecondsPerHour {
      assert t == q * 3600 + r;
    } else {
      assert t == q * 86400 + r;
    }
  }

  /** The breakdown of an instant given by its day and its time of day. */
  lemma {:induction false} BreakdownOf(day: int, h: nat, mi: nat, sec: nat)
    requires h < 24 && mi < 60 && sec < 60
    ensures var b, d := Breakdown(day * SecondsPerDay + h * SecondsPerHour + mi * 60 + sec), CivilFromDays(day);
      b == DateTime(d.year, d.month, d.day, h, mi, sec)
  {
    var s := h * SecondsPerHour + mi * 60 + sec;
    DivModUnique(day * SecondsPerDay + s, day, s, SecondsPerDay);
    DivModUnique(s, h, mi * 60 + sec, SecondsPerHour);
    DivModUnique(mi * 60 + sec, mi, sec, 60);
    DivModUnique(s, h * 60 + mi, sec, 60);
  }

  /** An instant written as its day, hour, minute and second. */
  lemma {:induction false} Decompose(t: int)
    ensures var b := Breakdown(t);
      t == DayOf(t) * SecondsPerDay + b.hour * SecondsPerHour + b.minute * 60 + b.second
      && t % SecondsPerDay == b.hour * SecondsPerHour + b.minute * 60 + b.second
      && t % 60 == b.second
  {
    var b := Breakdown(t);
    ComposeBreakdown(t);
    var q := DayOf(t) * 1440 + b.hour * 60 + b.minute;
    assert t == q * 60 + b.second;
    DivModUnique(t, q, b.second, 60);
  }

  /** Midnight of the day of `t`: `new Date(y, m, d, 0, 0, 0, 0)` built from `now`'s fields. */
  function StartOfDay(t: int): (r: int)
    ensures r <= t && DayOf(r) == DayOf(t)
    ensures var a, b := Breakdown(r), Breakdown(t);
      a.year == b.year && a.month == b.month && a.day == b.day
      && a.hour == 0 && a.minute == 0 && a.second == 0
  {
    Decompose(t);
    BreakdownOf(DayOf(t), 0, 0, 0);
    t - t % SecondsPerDay
  }

  /** The current minute: `new Date(y, m, d, h, min, 0, 0)` built from `now`'s fields. */
  function StartOfMinute(t: int): (r: int)
    ensures r <= t < r + 60 && DayOf(r) == DayOf(t)
    ensures var a, b := Breakdown(r), Breakdown(t);
      a.year == b.year && a.month == b.month && a.day == b.day
      && a.hour == b.hour && a.minute == b.minute && a.second == 0
  {
    Decompose(t);
    var b := Breakdown(t);
    BreakdownOf(DayOf(t), b.hour, b.minute, b.second);
    BreakdownOf(DayOf(t), b.hour, b.minute, 0);
    t - t % 60
  }

  /** The hour an instant falls in: `DATE_FORMAT(ts, '%Y-%m-%d %H:00:00')` read as an instant. */
  function StartOfHour(t: int): (r: int)
    ensures r <= t < r + SecondsPerHour && r % SecondsPerHour == 0
    ensures var a, b := Breakdown(r), Breakdown(t);
      a.year == b.year && a.month == b.month && a.day == b.day
      && a.hour == b.hour && a.minute == 0 && a.second == 0
  {
    Decompose(t);
    var b := Breakdown(t);
    var q := DayOf(t) * 24 + b.hour;
    assert q * SecondsPerHour == DayOf(t) * SecondsPerDay + b.hour * SecondsPerHour;
    DivModUnique(t, q, b.minute * 60 + b.second, SecondsPerHour);
    var r := DayOf(t) * SecondsPerDay + b.hour * SecondsPerHour;
    assert t - t % SecondsPerHour == r;
    BreakdownOf(DayOf(t), b.hour, 0, 0);
    assert r % SecondsPerHour == 0 by {
      DivModUnique(r, q, 0, SecondsPerHour);
    }
    t - t % SecondsPerHour
  }

  /** The default range of every picker starts no later than it ends. */
  lemma {:induction false} DefaultRangeOrdered(now: int)
    ensures StartOfDay(now) <= StartOfMinute(now) <= now
  {
    Decompose(now);
  }

  // ---------------------------------------------------------------------------
  // Rendering.

  /** `YYYY-MM-DD HH:mm:ss`, every field but the year padded to two digits with `padStart(2,'0')`. */
  function FormatDateTime(dt: DateTime): string
  {
    IntToString(dt.year) + FormatTail(dt)
  }

  /** Everything after the year: `-MM-DD HH:mm:ss`. */
  function FormatTail(dt: DateTime): string
  {
    "-" + Pad2(dt.month) + "-" + Pad2(dt.day) + " "
      + Pad2(dt.hour) + ":" + Pad2(dt.minute) + ":" + Pad2(dt.second)
  }

  /** The `pad` of the range card: `n < 10 ? '0' + n : n`. */
  function PadBelowTen(n: nat): (s: string)
    ensures s == Pad2(n)
  {
    if n < 10 then "0" + NatToString(n) else NatToString(n)
  }

  /** `YYYY-MM-DD HH-MM-SS`: the range card's variant, with hyphens inside the time. */
  function FormatHyphenated(dt: DateTime): string
  {
    IntToString(dt.year) + HyphenTail(dt)
  }

  /** The year in front of the fixed-width tail: an optional minus sign and decimal digits. */
  function ParseYear(y: string): (r: Option<int>)
  {
    var digits := if |y| > 0 && y[0] == '-' then y[1..] else y;
    if |digits| > 0 && AllDigits(digits) then
      var v: int := DigitsValue(digits);
      Some(if y[0] == '-' then -v else v)
    else None
  }

  /** Two decimal digits at `t[i..i+2]`. */
  function Field2(t: string, i: nat): (r: Option<nat>)
    requires i + 2 <= |t|
    ensures r.Some? ==> r.value < 100
  {
    if IsDigit(t[i]) && IsDigit(t[i + 1]) then Some(DigitValue(t[i]) * 10 + DigitValue(t[i + 1])) else None
  }

  /** Reads `<year>-MM-DD HH:mm:ss` back; None for anything else (an invalid moment). */
  function ParseDateTime(s: string): (r: Option<DateTime>)
    ensures r.Some? ==> ValidDateTime(r.value)
  {
    if |s| < 16 then None
    else
      var t := s[|s| - 15..];
      var year := ParseYear(s[..|s| - 15]);
      var mo, d, h, mi, se := Field2(t, 1), Field2(t, 4), Field2(t, 7), Field2(t, 10), Field2(t, 13);
      if year.None? || mo.None? || d.None? || h.None? || mi.None? || se.None? then None
      else if !(t[0] == '-' && t[3] == '-' && t[6] == ' ' && t[9] == ':' && t[12] == ':') then None
      else
        var dt := DateTime(year.value, mo.value, d.value, h.value, mi.value, se.value);
        if ValidDateTime(dt) then Some(dt) else None
  }

  /** Below 100, two-digit padding is the tens digit followed by the units digit. */
  lemma {:induction false} Pad2Chars(n: nat)
    requires n < 100
    ensures Pad2(n) == [DigitChar(n / 10), DigitChar(n % 10)]
  {
    if n < 10 {
      assert NatToString(n) == [DigitChar(n)];
      assert Zeros(1) == "0";
    } else {
      assert NatToString(n / 10) == [DigitChar(n / 10)];
    }
  }

  /** Where each two-character field sits in `-a-b c:d:e`. */
  lemma {:induction false} TailLayout(a: string, b: string, c: string, d: string, e: string)
    requires |a| == 2 && |b| == 2 && |c| == 2 && |d| == 2 && |e| == 2
    ensures var t := "-" + a + "-" + b + " " + c + ":" + d + ":" + e;
      |t| == 15 && t[0] == '-' && t[3] == '-' && t[6] == ' ' && t[9] == ':' && t[12] == ':'
      && t[1] == a[0] && t[2] == a[1] && t[4] == b[0] && t[5] == b[1] && t[7] == c[0] && t[8] == c[1]
      && t[10] == d[0] && t[11] == d[1] && t[13] == e[0] && t[14] == e[1]
  {
    var t1 := "-" + a;
    var t2 := t1 + "-" + b;
    var t3 := t2 + " " + c;
    var t4 := t3 + ":" + d;
    var t := t4 + ":" + e;
    assert t1[0] == '-' && t1[1] == a[0] && t1[2] == a[1];
    assert forall k :: 0 <= k < 3 ==> t2[k] == t1[k];
    assert t2[3] == '-' && t2[4] == b[0] && t2[5] == b[1];
    assert forall k :: 0 <= k < 6 ==> t3[k] == t2[k];
    assert t3[6] == ' ' && t3[7] == c[0] && t3[8] == c[1];
    assert forall k :: 0 <= k < 9 ==> t4[k] == t3[k];
    assert t4[9] == ':' && t4[10] == d[0] && t4[11] == d[1];
    assert forall k :: 0 <= k < 12 ==> t[k] == t4[k];
    assert t[12] == ':' && t[13] == e[0] && t[14] == e[1];
  }

  lemma {:induction false} Field2OfPad(t: string, i: nat, n: nat)
    requires n < 100 && i + 2 <= |t| && |Pad2(n)| == 2 && t[i] == Pad2(n)[0] && t[i + 1] == Pad2(n)[1]
    ensures Field2(t, i) == Some(n)
  {
    Pad2Chars(n);
  }

  lemma {:induction false} TailRoundTrip(dt: DateTime)
    requires ValidDateTime(dt)
    ensures var t := FormatTail(dt);
      |t| == 15 && t[0] == '-' && t[3] == '-' && t[6] == ' ' && t[9] == ':' && t[12] == ':'
      && Field2(t, 1) == Some(dt.month) && Field2(t, 4) == Some(dt.day) && Field2(t, 7) == Some(dt.hour)
      && Field2(t, 10) == Some(dt.minute) && Field2(t, 13) == Some(dt.second)
  {
    var a, b, c, d, e := Pad2(dt.month), Pad2(dt.day), Pad2(dt.hour), Pad2(dt.minute), Pad2(dt.second);
    var t := FormatTail(dt);
    TailLayout(a, b, c, d, e);
    assert t == "-" + a + "-" + b + " " + c + ":" + d + ":" + e;
    Field2OfPad(t, 1, dt.month);
    Field2OfPad(t, 4, dt.day);
    Field2OfPad(t, 7, dt.hour);
    Field2OfPad(t, 10, dt.minute);
    Field2OfPad(t, 13, dt.second);
  }

  lemma {:induction false} YearRoundTrip(y: int)
    ensures var s := IntToString(y);
      var digits := if s[0] == '-' then s[1..] else s;
      |digits| > 0 && AllDigits(digits) && (if s[0] == '-' then -(DigitsValue(digits) as int) else DigitsValue(digits) as int) == y
  {
    if y < 0 {
      NatToStringRoundTrip(-y);
      assert IntToString(y)[1..] == NatToString(-y);
    } else {
      NatToStringRoundTrip(y);
      assert IsDigit(NatToString(y)[0]);
    }
  }

  /** The rendering is read back exactly: it loses nothing and keeps its fixed shape. */
  lemma {:induction false} ParseFormatRoundTrip(dt: DateTime)
    requires ValidDateTime(dt)
    ensures ParseDateTime(FormatDateTime(dt)) == Some(dt)
  {
    var ys := IntToString(dt.year);
    TailRoundTrip(dt);
    YearRoundTrip(dt.year);
    assert ParseYear(ys) == Some(dt.year);
    ParseOfParts(ys, FormatTail(dt), dt);
  }

  /** A year text followed by a well-formed tail reads back as the fields they hold. */
  lemma {:induction false} ParseOfParts(ys: string, t: string, dt: DateTime)
    requires ValidDateTime(dt) && ParseYear(ys) == Some(dt.year)
    requires |t| == 15 && t[0] == '-' && t[3] == '-' && t[6] == ' ' && t[9] == ':' && t[12] == ':'
    requires Field2(t, 1) == Some(dt.month) && Field2(t, 4) == Some(dt.day) && Field2(t, 7) == Some(dt.hour)
    requires Field2(t, 10) == Some(dt.minute) && Field2(t, 13) == Some(dt.second)
    ensures ParseDateTime(ys + t) == Some(dt)
  {
    var s := ys + t;
    assert s[|s| - 15..] == t;
    assert s[..|s| - 15] == ys;
  }

  function HyphenTail(dt: DateTime): string
  {
    "-" + PadBelowTen(dt.month) + "-" + PadBelowTen(dt.day) + " "
      + PadBelowTen(dt.hour) + "-" + PadBelowTen(dt.minute) + "-" + PadBelowTen(dt.second)
  }

  lemma {:induction false} TailsDiffer(dt: DateTime)
    requires ValidDateTime(dt)
    ensures var ta, tb := FormatTail(dt), HyphenTail(dt);
      |ta| == 15 && |tb| == 15 && ta[9] == ':' && ta[12] == ':' && tb[9] == '-' && tb[12] == '-'
      && forall k :: 0 <= k < 15 && k != 9 && k != 12 ==> ta[k] == tb[k]
  {
    var m, d, h, mi, se := Pad2(dt.month), Pad2(dt.day), Pad2(dt.hour), Pad2(dt.minute), Pad2(dt.second);
    var p := "-" + m + "-" + d + " " + h;
    var ta, tb := FormatTail(dt), HyphenTail(dt);
    assert |p| == 9;
    assert ta == p + ":" + mi + ":" + se;
    assert tb == p + "-" + mi + "-" + se;
    forall k | 0 <= k < 15 && k != 9 && k != 12
      ensures ta[k] == tb[k]
    {
      if k < 9 {
        assert ta[k] == p[k] && tb[k] == p[k];
      } else if k < 12 {
        assert ta[k] == mi[k - 10] && tb[k] == mi[k - 10];
      } else {
        assert ta[k] == se[k - 13] && tb[k] == se[k - 13];
      }
    }
  }

  /** The two renderings agree everywhere except the two separators inside the time. */
  lemma {:induction false} HyphenatedDiffersOnlyInTime(dt: DateTime)
    requires ValidDateTime(dt)
    ensures var a, b := FormatDateTime(dt), FormatHyphenated(dt);
      |a| == |b| && a[|a| - 6] == ':' && a[|a| - 3] == ':' && b[|b| - 6] == '-' && b[|b| - 3] == '-'
      && forall i :: 0 <= i < |a| && i != |a| - 6 && i != |a| - 3 ==> a[i] == b[i]
  {
    var ys := IntToString(dt.year);
    TailsDiffer(dt);
    var a, b := FormatDateTime(dt), FormatHyphenated(dt);
    forall i | 0 <= i < |a| && i != |a| - 6 && i != |a| - 3
      ensures a[i] == b[i]
    {
      if i >= |ys| {
        assert a[i] == FormatTail(dt)[i - |ys|];
        assert b[i] == HyphenTail(dt)[i - |ys|];
      }
    }
  }

  // ---------------------------------------------------------------------------
  // Calendar dates as `yyyy-MM-dd`.

  /** `yyyy` (date-fns, moment `YYYY`): the year padded to four digits. */
  function YearText(y: int): string
  {
    if y >= 0 then PadStart(y, 4) else "-" + PadStart(-y, 4)
  }

  /** `format(d, 'yyyy-MM-dd')` (date-fns) or `format('YYYY-MM-DD')` (moment). */
  function IsoDate(d: Date): string
  {
    YearText(d.year) + DateTail(d)
  }

  lemma {:induction false} YearTextSign(y: int)
    ensures |YearText(y)| >= 4
    ensures (YearText(y)[0] == '-') == (y < 0)
    ensures y < 0 ==> YearText(y)[1..] == PadStart(-y, 4)
  {
    if y >= 0 {
      assert IsDigit(PadStart(y, 4)[0]);
    }
  }

  lemma {:induction false} YearTextInjective(a: int, b: int)
    ensures YearText(a) == YearText(b) ==> a == b
  {
    YearTextSign(a);
    YearTextSign(b);
  }

  /** The `-MM-dd` part of `yyyy-MM-dd`. */
  function DateTail(d: Date): string
  {
    "-" + Pad2(d.month) + "-" + Pad2(d.day)
  }

  lemma {:induction false} DateTailInjective(a: Date, b: Date)
    requires ValidDate(a) && ValidDate(b)
    ensures |DateTail(a)| == 6
    ensures DateTail(a) == DateTail(b) ==> a.month == b.month && a.day == b.day
  {
    var ta, tb := DateTail(a), DateTail(b);
    assert ta[1..3] == Pad2(a.month) && ta[4..] == Pad2(a.day);
    assert tb[1..3] == Pad2(b.month) && tb[4..] == Pad2(b.day);
  }

  /** Different calendar dates print differently, so `yDates.indexOf` finds the right row. */
  lemma {:induction false} IsoDateInjective(a: Date, b: Date)
    requires ValidDate(a) && ValidDate(b)
    ensures IsoDate(a) == IsoDate(b) ==> a == b
  {
    DateTailInjective(a, b);
    DateTailInjective(b, a);
    var s, t := IsoDate(a), IsoDate(b);
    assert s == YearText(a.year) + DateTail(a);
    assert t == YearText(b.year) + DateTail(b);
    if s == t {
      assert YearText(a.year) == s[..|s| - 6] == YearText(b.year);
      assert DateTail(a) == s[|s| - 6..] == DateTail(b);
      YearTextInjective(a.year, b.year);
    }
  }

}
