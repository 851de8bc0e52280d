/** Local wall-clock time as whole minutes. The date library's day, hour and
    week arithmetic becomes integer arithmetic here; month boundaries are not
    computed but supplied as a `MonthSpan` (see the README). */
module LocalTime {

  /** Minutes of local time since 1970-01-01 00:00, which was a Thursday. */
  type Instant = int

  const MinutesPerHour: int := 60
  const HoursPerDay: int := 24
  const MinutesPerDay: int := 1440

  /** Midnight at the start of day `d` (`startOfDay`). */
  function DayStart(d: int): Instant {
    d * MinutesPerDay
  }

  /** The last minute of day `d` (`endOfDay`, 23:59 at minute resolution). */
  function DayEnd(d: int): Instant {
    d * MinutesPerDay + MinutesPerDay - 1
  }

  /** The day an instant falls on; two instants get the same
      `format(_, 'yyyy-MM-dd')` key exactly when their `DayKey`s agree. */
  function DayKey(t: Instant): (d: int)
    ensures DayStart(d) <= t <= DayEnd(d)
    ensures forall e :: DayStart(e) <= t <= DayEnd(e) ==> e == d
  {
    t / MinutesPerDay
  }

  /** `getHours()`: the hour of the day an instant falls in. */
  function HourOf(t: Instant): (h: int)
    ensures 0 <= h < HoursPerDay
    ensures DayStart(DayKey(t)) + h * MinutesPerHour <= t < DayStart(DayKey(t)) + (h + 1) * MinutesPerHour
  {
    (t % MinutesPerDay) / MinutesPerHour
  }

  /** Day of the week, 0 = Sunday through 6 = Saturday (`getDay()`). */
  function Weekday(d: int): (w: int)
    ensures 0 <= w < 7
  {
    (d + 4) % 7
  }

  /** Consecutive days have consecutive weekdays, Saturday wrapping to Sunday. */
  lemma WeekdayNext(d: int)
    ensures Weekday(d + 1) == (Weekday(d) + 1) % 7
  {
    var q := (d + 4) / 7;
    assert d + 4 == 7 * q + Weekday(d);
    if Weekday(d) < 6 {
      ModUnique(d + 5, q, Weekday(d) + 1);
    } else {
      ModUnique(d + 5, q + 1, 0);
    }
  }

  lemma ModUnique(x: int, q: int, r: int)
    requires 0 <= r < 7 && x == 7 * q + r
    ensures x % 7 == r
  {
  }

  /** The Sunday on or before day `d` (`startOfWeek` with `weekStartsOn: 0`). */
  function WeekStartDay(d: int): (s: int)
    ensures Weekday(s) == 0
    ensures s <= d < s + 7
  {
    var q := (d + 4) / 7;
    assert d + 4 == 7 * q + Weekday(d);
    ModUnique(d - Weekday(d) + 4, q, 0);
    d - Weekday(d)
  }

  /** The Saturday on or after day `d` (`endOfWeek` with `weekStartsOn: 0`). */
  function WeekEndDay(d: int): (e: int)
    ensures Weekday(e) == 6
    ensures e - 7 < d <= e
  {
    var s := WeekStartDay(d);
    var q := (s + 4) / 7;
    assert s + 4 == 7 * q;
    ModUnique(s + 10, q, 6);
    s + 6
  }

  /** A calendar month as the date library reports it: its first day and its
      number of days. */
  datatype MonthSpan = MonthSpan(firstDay: int, length: int) {
    predicate Valid() {
      28 <= length <= 31
    }
    predicate Contains(d: int) {
      firstDay <= d < firstDay + length
    }
    function LastDay(): int {
      firstDay + length - 1
    }
  }

  /** An inclusive interval of instants. */
  datatype Range = Range(start: Instant, end: Instant) {
    predicate Contains(t: Instant) {
      start <= t <= end
    }
  }

  /** From midnight of day `first` to the last minute of day `last`. */
  function Days(first: int, last: int): (r: Range)
    requires first <= last
    ensures forall t :: r.Contains(t) <==> first <= DayKey(t) <= last
  {
    Range(DayStart(first), DayEnd(last))
  }
}
