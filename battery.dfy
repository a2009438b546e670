/** The battery card (components/battery.tsx): the two text formatters of the previous
    cycle and the carousel index over the three batteries. */
module Battery {
  import opened Text

  datatype BatteryInfo = BatteryInfo(name: string, status: string, statusColor: string,
                                     charge: string, discharge: string, temperature: string, voltage: string)

  const Batteries: seq<BatteryInfo> := [
    BatteryInfo("IOE Battery", "Idle", "#FACC15", "0 kWh", "0 kWh", "33°C", "695"),
    BatteryInfo("UPS Battery", "Active", "#22C55E", "0 kWh", "0 kWh", "33°C", "695"),
    BatteryInfo("LTO", "Offline", "#9CA3AF", "0 kWh", "0 kWh", "33°C", "695")]

  // ---------------------------------------------------------------------------
  // Formatters.

  /** `formatTimeRange`: the text after the first space of each input, joined by " - "
      (a missing part prints as "undefined"). */
  function FormatTimeRange(start: string, end: string): string
  {
    Show(Part(start, ' ', 1)) + " - " + Show(Part(end, ' ', 1))
  }

  /** For `date time` inputs the range shows the two times. */
  lemma {:induction false} FormatTimeRangeOf(d1: string, t1: string, d2: string, t2: string)
    requires ' ' !in d1 && ' ' !in t1 && ' ' !in d2 && ' ' !in t2
    ensures FormatTimeRange(d1 + " " + t1, d2 + " " + t2) == t1 + " - " + t2
  {
    SplitTwo(d1, t1, ' ');
    SplitTwo(d2, t2, ' ');
  }

  /** Without a space there is no time, and the template prints "undefined". */
  lemma {:induction false} FormatTimeRangeWithoutTime(start: string, end: string)
    requires ' ' !in start
    ensures FormatTimeRange(start, end) == "undefined - " + Show(Part(end, ' ', 1))
  {
    SplitOne(start, ' ');
  }

  /** `formatDate`: the date before the first space, `YYYY-MM-DD`, rewritten as `DD-MM-YYYY`. */
  function FormatDate(dateStr: string): string
  {
    var date := Split(dateStr, ' ')[0];
    Show(Part(date, '-', 2)) + "-" + Show(Part(date, '-', 1)) + "-" + Show(Part(date, '-', 0))
  }

  /** `YYYY-MM-DD rest` becomes `DD-MM-YYYY`, whatever follows the space. */
  lemma {:induction false} FormatDateOf(y: string, m: string, d: string, rest: string)
    requires '-' !in y && '-' !in m && '-' !in d
    requires ' ' !in y && ' ' !in m && ' ' !in d
    ensures FormatDate(y + "-" + m + "-" + d + " " + rest) == d + "-" + m + "-" + y
  {
    var date := y + "-" + m + "-" + d;
    assert ' ' !in date by {
      assert forall c :: c in date ==> c in y || c == '-' || c in m || c in d;
    }
    SplitHead(date, rest, ' ');
    assert y + "-" + m + "-" + d + " " + rest == date + [' '] + rest;
    SplitThree(y, m, d, '-');
    assert date == y + ['-'] + m + ['-'] + d;
  }

  /** The rewrite swaps the outer fields, so applied to its own output it restores the date. */
  lemma {:induction false} FormatDateSwapsBack(y: string, m: string, d: string)
    requires '-' !in y && '-' !in m && '-' !in d
    requires ' ' !in y && ' ' !in m && ' ' !in d
    ensures FormatDate(FormatDate(y + "-" + m + "-" + d + " ")) == y + "-" + m + "-" + d
  {
    FormatDateOf(y, m, d, "");
    assert y + "-" + m + "-" + d + " " + "" == y + "-" + m + "-" + d + " ";
    var swapped := d + "-" + m + "-" + y;
    assert ' ' !in swapped by {
      assert forall c :: c in swapped ==> c in y || c == '-' || c in m || c in d;
    }
    SplitOne(swapped, ' ');
    SplitThree(d, m, y, '-');
    assert swapped == d + ['-'] + m + ['-'] + y;
  }

  // ---------------------------------------------------------------------------
  // The carousel.

  /** `handlePrev`: one step back unless at the first battery. */
  function PrevIndex(i: int): (j: int)
    ensures 0 <= i < |Batteries| ==> 0 <= j < |Batteries|
    ensures j == i <==> i <= 0
  {
    if i > 0 then i - 1 else i
  }

  /** `handleNext`: one step forward unless at the last battery. */
  function NextIndex(i: int): (j: int)
    ensures 0 <= i < |Batteries| ==> 0 <= j < |Batteries|
    ensures j == i <==> i >= |Batteries| - 1
  {
    if i < |Batteries| - 1 then i + 1 else i
  }

  /** Away from the ends a step back and a step forward undo each other. */
  lemma {:induction false} PrevNextInverse(i: int)
    requires 0 <= i < |Batteries|
    ensures i > 0 ==> NextIndex(PrevIndex(i)) == i
    ensures i < |Batteries| - 1 ==> PrevIndex(NextIndex(i)) == i
  {
  }

  class BatteryCarousel {
    var index: int

    predicate Valid()
      reads this
    {
      0 <= index < |Batteries|
    }

    constructor ()
      ensures index == 0 && Valid()
    {
      index := 0;
    }

    /** `batteries[index]`, always defined. */
    function Current(): BatteryInfo
      reads this
      requires Valid()
    {
      Batteries[index]
    }

    /** `disabled={index === 0}`: exactly where a press would change nothing. */
    predicate PrevDisabled()
      reads this
    {
      index == 0
    }

    /** `disabled={index === batteries.length - 1}`. */
    predicate NextDisabled()
      reads this
    {
      index == |Batteries| - 1
    }

    method Prev()
      modifies this
      requires Valid()
      ensures Valid() && index == PrevIndex(old(index))
      ensures (index == old(index)) == old(PrevDisabled())
    {
      if index > 0 {
        index := index - 1;
      }
    }

    method Next()
      modifies this
      requires Valid()
      ensures Valid() && index == NextIndex(old(index))
      ensures (index == old(index)) == old(NextDisabled())
    {
      if index < |Batteries| - 1 {
        index := index + 1;
      }
    }
  }
}
