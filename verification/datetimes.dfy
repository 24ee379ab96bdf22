/** Naive date-times as Python's `datetime.datetime` holds them: calendar
    fields down to the microsecond, no time zone. The clock itself is never
    read here; every "now" is a parameter. */
module DateTimes {
  import opened Results
  import opened Calendar

  datatype DateTime = DateTime(
    year: int, month: int, day: int,
    hour: int, minute: int, second: int, microsecond: int)

  /** The raised `OverflowError` of date-time arithmetic past year 9999. */
  datatype Overflow = DateValueOutOfRange

  const MicrosPerSecond: int := 1_000_000
  const MicrosPerHour: int := 3600 * MicrosPerSecond
  const MicrosPerDay: int := 24 * MicrosPerHour

  predicate Valid(t: DateTime) {
    && ValidDate(t.year, t.month, t.day)
    && 0 <= t.hour < 24 && 0 <= t.minute < 60 && 0 <= t.second < 60
    && 0 <= t.microsecond < MicrosPerSecond
  }

  /** The largest representable date-time, `datetime.max`. */
  const Latest: DateTime := DateTime(MaxYear, 12, 31, 23, 59, 59, 999_999)

  /** Microseconds since 0001-01-01 00:00:00: the reference timeline. */
  function ToMicros(t: DateTime): int
    requires Valid(t)
  {
    var days := Ordinal(t.year, t.month, t.day) - 1;
    (((days * 24 + t.hour) * 60 + t.minute) * 60 + t.second) * MicrosPerSecond + t.microsecond
  }

  /** Python's `a < b` on naive date-times: field by field, most significant first. */
  predicate Before(a: DateTime, b: DateTime) {
    if a.year != b.year then a.year < b.year
    else if a.month != b.month then a.month < b.month
    else if a.day != b.day then a.day < b.day
    else if a.hour != b.hour then a.hour < b.hour
    else if a.minute != b.minute then a.minute < b.minute
    else if a.second != b.second then a.second < b.second
    else a.microsecond < b.microsecond
  }

  /** Python's `a >= b` on naive date-times. */
  predicate AtOrAfter(a: DateTime, b: DateTime) {
    !Before(a, b)
  }

  /** The time of day of a valid date-time, in microseconds, is below one day. */
  lemma TimeOfDayBounded(t: DateTime)
    requires Valid(t)
    ensures (Ordinal(t.year, t.month, t.day) - 1) * MicrosPerDay <= ToMicros(t)
    ensures ToMicros(t) < Ordinal(t.year, t.month, t.day) * MicrosPerDay
  {
    var timeOfDay := ((t.hour * 60 + t.minute) * 60 + t.second) * MicrosPerSecond + t.microsecond;
    assert 0 <= timeOfDay < MicrosPerDay;
    assert ToMicros(t) == (Ordinal(t.year, t.month, t.day) - 1) * MicrosPerDay + timeOfDay;
  }

  /** The field-by-field order of `datetime` agrees with the timeline. */
  lemma BeforeIsEarlier(a: DateTime, b: DateTime)
    requires Valid(a) && Valid(b)
    ensures Before(a, b) <==> ToMicros(a) < ToMicros(b)
    ensures a == b <==> ToMicros(a) == ToMicros(b)
  {
    OrdinalOrder(a.year, a.month, a.day, b.year, b.month, b.day);
    TimeOfDayBounded(a);
    TimeOfDayBounded(b);
  }

  /** `datetime.max` is the last instant of the timeline. */
  lemma LatestIsLast(t: DateTime)
    requires Valid(t)
    ensures Valid(Latest)
    ensures ToMicros(t) <= ToMicros(Latest)
  {
    BeforeIsEarlier(Latest, t);
  }

  /** The date-time with its microseconds dropped, as `strftime("%S")` shows it. */
  function Truncate(t: DateTime): (r: DateTime)
    requires Valid(t)
    ensures Valid(r) && r.microsecond == 0
    ensures ToMicros(r) == ToMicros(t) - t.microsecond
    ensures ToMicros(r) % MicrosPerSecond == 0
  {
    t.(microsecond := 0)
  }

  /** `t + timedelta(hours=1)`: rolls the hour over into the next day, month
      and year, and raises `OverflowError` past `datetime.max`. */
  function AddHour(t: DateTime): (r: Result<DateTime, Overflow>)
    requires Valid(t)
    ensures r.Success? ==> Valid(r.value) && ToMicros(r.value) == ToMicros(t) + MicrosPerHour
    ensures r.Failure? <==> ToMicros(t) + MicrosPerHour > ToMicros(Latest)
  {
    if t.hour < 23 then
      var r := t.(hour := t.hour + 1);
      LatestIsLast(r);
      Success(r)
    else
      var next := NextDay(t.year, t.month, t.day);
      if next.0 > MaxYear then
        Failure(DateValueOutOfRange)
      else
        var r := DateTime(next.0, next.1, next.2, 0, t.minute, t.second, t.microsecond);
        LatestIsLast(r);
        Success(r)
  }
}
