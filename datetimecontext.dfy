/** The shared range of components/datetimecontext.tsx: the provider's initial pair, its
    `format`, and `useDateTime`, which fails outside a provider. */
module DateTimeContext {
  import opened Text
  import opened Clock

  /** The value a provider hands down: the two instants (`format` is `Picker.Report`'s rendering). */
  datatype Context = Context(startDate: int, endDate: int)

  /** The provider's initial state: midnight of today, and now with seconds dropped. */
  function Initial(now: int): (c: Context)
    ensures c.startDate <= c.endDate <= now && DayOf(c.startDate) == DayOf(now) == DayOf(c.endDate)
    ensures var s, e, n := Breakdown(c.startDate), Breakdown(c.endDate), Breakdown(now);
      s == DateTime(n.year, n.month, n.day, 0, 0, 0) && e == DateTime(n.year, n.month, n.day, n.hour, n.minute, 0)
  {
    DefaultRangeOrdered(now);
    Context(StartOfDay(now), StartOfMinute(now))
  }

  datatype Result<T> = Ok(value: T) | Failure(message: string)

  /** `useDateTime`: the context, or the error thrown when no provider is above. */
  function UseDateTime(provided: Option<Context>): (r: Result<Context>)
    ensures r.Ok? <==> provided.Some?
    ensures r.Ok? ==> r.value == provided.value
    ensures r.Failure? ==> r.message == "useDateTime must be used within a DateTimeProvider"
  {
    match provided
    case Some(c) => Ok(c)
    case None => Failure("useDateTime must be used within a DateTimeProvider")
  }
}
