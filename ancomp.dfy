/** The analytics range card (components/an-comp.tsx): the same default range and one-bound
    confirm as the range card, but it reports once on mount and then from the confirm handler
    itself, with the pair it has just computed. */
module AnComp {
  import opened Text
  import opened Clock
  import opened Picker

  class AnCompView {
    var startDate: int
    var endDate: int
    var mode: Mode
    /** Whether the `onDateChange` prop was passed. */
    const hasListener: bool
    /** Every pair handed to `onDateChange`, oldest first. */
    var reports: seq<(string, string)>

    /** The initial state and the one call made on mount. */
    constructor (now: int, hasListener: bool)
      ensures startDate == StartOfDay(now) && endDate == StartOfMinute(now)
      ensures mode == Closed && this.hasListener == hasListener
      ensures reports == (if hasListener then [Report(startDate, endDate)] else [])
    {
      var start, end := StartOfDay(now), StartOfMinute(now);
      startDate, endDate := start, end;
      mode := Closed;
      this.hasListener := hasListener;
      reports := if hasListener then [Report(start, end)] else [];
    }

    method Open(m: Mode)
      modifies this
      ensures mode == m && startDate == old(startDate) && endDate == old(endDate) && reports == old(reports)
    {
      mode := m;
    }

    /** `onConfirm`: `newStart`/`newEnd` start from the current bounds, the picked one takes the
        date, the mode resets, and the listener (if any) gets `(newStart, newEnd)`. The start
        may now lie after the end. */
    method ConfirmDate(date: int)
      modifies this
      ensures (startDate, endDate) == SetBound(old(mode), old(startDate), old(endDate), date)
      ensures mode == Closed
      ensures reports == old(reports) + (if hasListener then [Report(startDate, endDate)] else [])
    {
      var newStart := startDate;
      var newEnd := endDate;
      if mode == Start {
        startDate := date;
        newStart := date;
      } else if mode == End {
        endDate := date;
        newEnd := date;
      }
      mode := Closed;
      if hasListener {
        reports := reports + [Report(newStart, newEnd)];
      }
    }

    method Cancel()
      modifies this
      ensures mode == Closed && startDate == old(startDate) && endDate == old(endDate) && reports == old(reports)
    {
      mode := Closed;
    }
  }
}
