/** The range card (components/datepicker.tsx): today's midnight to the current minute, a
    confirm that sets only the picked bound, and the optional `onDateChange` that receives
    the pair in the `YYYY-MM-DD HH-MM-SS` variant (hyphens inside the time). */
module DateCard {
  import opened Text
  import opened Clock
  import opened Picker

  /** `onDateChange(formatDateTime(startDate), formatDateTime(endDate))` of this card. */
  function HyphenReport(start: int, end: int): (string, string)
  {
    (FormatHyphenated(Breakdown(start)), FormatHyphenated(Breakdown(end)))
  }

  /** The card's rendering is not the `HH:mm:ss` form the other pickers report: read
      back with that form's parser it gives nothing. */
  lemma {:induction false} HyphenatedIsNotColonForm(dt: DateTime)
    requires ValidDateTime(dt)
    ensures ParseDateTime(FormatHyphenated(dt)) == None
  {
    var s := FormatHyphenated(dt);
    TailsDiffer(dt);
    assert s[|s| - 15..] == HyphenTail(dt);
  }

  class DateCardView {
    var startDate: int
    var endDate: int
    var mode: Mode
    /** Whether the `onDateChange` prop was passed. */
    const hasListener: bool
    /** Every pair handed to `onDateChange`, oldest first. */
    var reports: seq<(string, string)>

    /** The initial state; the effect's first run reports the pair if there is a listener. */
    constructor (now: int, hasListener: bool)
      ensures startDate == StartOfDay(now) && endDate == StartOfMinute(now) && startDate <= endDate
      ensures mode == Closed && this.hasListener == hasListener
      ensures reports == (if hasListener then [HyphenReport(startDate, endDate)] else [])
    {
      var start, end := StartOfDay(now), StartOfMinute(now);
      DefaultRangeOrdered(now);
      startDate, endDate := start, end;
      mode := Closed;
      this.hasListener := hasListener;
      reports := if hasListener then [HyphenReport(start, end)] else [];
    }

    method Open(m: Mode)
      modifies this
      ensures mode == m && startDate == old(startDate) && endDate == old(endDate) && reports == old(reports)
    {
      mode := m;
    }

    /** `onConfirm`: only the picked bound changes, with no reordering; the mode resets. The
        effect reports again when a bound was set and a listener exists. */
    method ConfirmDate(date: int)
      modifies this
      ensures (startDate, endDate) == SetBound(old(mode), old(startDate), old(endDate), date)
      ensures mode == Closed && !Visible(mode)
      ensures reports == old(reports) + (if hasListener && old(mode) != Closed then [HyphenReport(startDate, endDate)] else [])
    {
      var changed := mode != Closed;
      if mode == Start {
        startDate := date;
      } else if mode == End {
        endDate := date;
      }
      mode := Closed;
      if hasListener && changed {
        reports := reports + [HyphenReport(startDate, endDate)];
      }
    }

    method Cancel()
      modifies this
      ensures mode == Closed && startDate == old(startDate) && endDate == old(endDate) && reports == old(reports)
    {
      mode := Closed;
    }
  }
}
