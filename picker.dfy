/** What the three date pickers share: the modal's mode (`'start' | 'end' | null`) and
    the confirm rule of the two pickers that move only the picked bound. */
module Picker {
  import opened Text
  import opened Clock

  /** `pickerMode`; `Closed` is `null`. */
  datatype Mode = Closed | Start | End

  /** `isVisible={pickerMode !== null}`. */
  predicate Visible(m: Mode)
  {
    m != Closed
  }

  /** `if (pickerMode === 'start') start = date; else if (pickerMode === 'end') end = date`:
      the picked bound takes the date, the other one is kept, nothing is reordered. */
  function SetBound(m: Mode, start: int, end: int, date: int): (r: (int, int))
    ensures m == Start ==> r == (date, end)
    ensures m == End ==> r == (start, date)
    ensures m == Closed ==> r == (start, end)
  {
    match m
    case Start => (date, end)
    case End => (start, date)
    case Closed => (start, end)
  }

  /** At most one bound moves, and a repeated confirm of the same date changes nothing more. */
  lemma {:induction false} SetBoundOneSide(m: Mode, start: int, end: int, date: int)
    ensures var r := SetBound(m, start, end, date); r.0 == start || r.1 == end
    ensures var r := SetBound(m, start, end, date); SetBound(m, r.0, r.1, date) == r
  {
  }

  /** Without reordering a confirmed start can land after the end. */
  lemma {:induction false} SetBoundMayReorder(start: int, end: int, date: int)
    requires start <= end < date
    ensures var r := SetBound(Start, start, end, date); r.0 > r.1
  {
  }

  /** `onDateChange(format(startDate), format(endDate))` with the zero-padded
      `YYYY-MM-DD HH:mm:ss` rendering (`formatDateTime` or `format`). */
  function Report(start: int, end: int): (string, string)
  {
    (FormatDateTime(Breakdown(start)), FormatDateTime(Breakdown(end)))
  }

  /** The reported pair reads back as exactly the two instants' wall-clock fields. */
  lemma {:induction false} ReportReadsBack(start: int, end: int)
    ensures ParseDateTime(Report(start, end).0) == Some(Breakdown(start))
    ensures ParseDateTime(Report(start, end).1) == Some(Breakdown(end))
  {
    ParseFormatRoundTrip(Breakdown(start));
    ParseFormatRoundTrip(Breakdown(end));
  }
}
