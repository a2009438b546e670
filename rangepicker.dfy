/** The unified range picker (components/datetimerangepicker.tsx): its default range, the
    confirm handler that keeps the start no later than the end by nudging the other bound by
    an hour, the modal's mode, and the pair it reports after every change. */
module RangePicker {
  import opened Text
  import opened Clock
  import opened Picker

  /** `handleDateConfirm` on the bounds. In start mode a date after the end becomes the start and
      pushes the end to one hour later; in any other mode the date becomes the end, and one
      before the start pulls the start to one hour earlier (`setHours(getHours() ± 1)`). */
  function Confirm(m: Mode, start: int, end: int, date: int): (r: (int, int))
    ensures r.0 <= r.1
    ensures m == Start ==> r.0 == date && (date <= end ==> r.1 == end) && (date > end ==> r.1 == date + SecondsPerHour)
    ensures m != Start ==> r.1 == date && (date >= start ==> r.0 == start) && (date < start ==> r.0 == date - SecondsPerHour)
  {
    if m == Start then
      (date, if date > end then date + SecondsPerHour else end)
    else
      (if date < start then date - SecondsPerHour else start, date)
  }

  /** The picked bound always takes the date; the other bound moves only to restore order, and
      then the range is exactly one hour. */
  lemma {:induction false} ConfirmMovesOtherOnlyToReorder(m: Mode, start: int, end: int, date: int)
    ensures var r := Confirm(m, start, end, date);
      (m == Start ==> (r.1 != end <==> date > end) && (r.1 != end ==> r.1 - r.0 == SecondsPerHour))
      && (m != Start ==> (r.0 != start <==> date < start) && (r.0 != start ==> r.1 - r.0 == SecondsPerHour))
  {
  }

  /** Confirming the same date twice in the same mode is the same as confirming it once. */
  lemma {:induction false} ConfirmIdempotent(m: Mode, start: int, end: int, date: int)
    ensures var r := Confirm(m, start, end, date); Confirm(m, r.0, r.1, date) == r
  {
  }

  /** An already ordered range whose picked bound is confirmed unchanged stays as it is. */
  lemma {:induction false} ConfirmOrderedUnchanged(m: Mode, start: int, end: int)
    requires start <= end
    ensures Confirm(m, start, end, if m == Start then start else end) == (start, end)
  {
  }

  class RangePickerView {
    var startDate: int
    var endDate: int
    var mode: Mode
    /** Every pair handed to `onDateChange`, oldest first. */
    var reports: seq<(string, string)>

    /** The initial state: the props when given, else today's midnight and the current minute;
        the effect reports the pair once on mount. */
    constructor (now: int, initialStartDate: Option<int>, initialEndDate: Option<int>)
      ensures startDate == (if initialStartDate.Some? then initialStartDate.value else StartOfDay(now))
      ensures endDate == (if initialEndDate.Some? then initialEndDate.value else StartOfMinute(now))
      ensures mode == Closed && reports == [Report(startDate, endDate)]
    {
      var start := if initialStartDate.Some? then initialStartDate.value else StartOfDay(now);
      var end := if initialEndDate.Some? then initialEndDate.value else StartOfMinute(now);
      startDate, endDate := start, end;
      mode := Closed;
      reports := [Report(start, end)];
    }

    predicate ModalVisible()
      reads this
    {
      Visible(mode)
    }

    /** Pressing the start or the end field opens the modal in that mode. */
    method Open(m: Mode)
      modifies this
      ensures mode == m && startDate == old(startDate) && endDate == old(endDate) && reports == old(reports)
    {
      mode := m;
    }

    /** `handleDateConfirm`: the new bounds, the mode reset (closing the modal), and, since the
        picked bound is always set to a new `Date`, one more report of the new pair. */
    method ConfirmDate(date: int)
      modifies this
      ensures (startDate, endDate) == Confirm(old(mode), old(startDate), old(endDate), date)
      ensures startDate <= endDate
      ensures mode == Closed && !ModalVisible()
      ensures reports == old(reports) + [Report(startDate, endDate)]
    {
      var start, end := startDate, endDate;
      if mode == Start {
        if date > end {
          end := date + SecondsPerHour;
        }
        start := date;
      } else {
        if date < start {
          start := date - SecondsPerHour;
        }
        end := date;
      }
      assert (start, end) == Confirm(mode, startDate, endDate, date);
      startDate, endDate, mode := start, end, Closed;
      reports := reports + [Report(start, end)];
    }

    /** `onCancel`: the modal closes and nothing else changes. */
    method Cancel()
      modifies this
      ensures mode == Closed && !ModalVisible()
      ensures startDate == old(startDate) && endDate == old(endDate) && reports == old(reports)
    {
      mode := Closed;
    }
  }
}
