/** The week grid (src/components/calendar/CalendarWeekView.jsx): a header
    row of the seven days Sunday to Saturday, then 24 hour rows with one cell
    per day. */
module WeekView {
  import opened Wrappers
  import opened LocalTime
  import opened Seqs
  import opened Schedule
  import opened DayBuckets
  import opened HourSlots

  /** `eachDayOfInterval` from `startOfWeek(currentDate)` to `endOfWeek(currentDate)`. */
  function WeekDays(current: Instant): (days: seq<int>)
    ensures |days| == 7
    ensures forall i :: 0 <= i < 7 ==> days[i] == days[0] + i && Weekday(days[i]) == i
    ensures DayKey(current) in days
  {
    var s := WeekStartDay(DayKey(current));
    var days := seq(7, i => s + i);
    WeekdaysOfWeek(s, days);
    assert days[DayKey(current) - s] == DayKey(current);
    days
  }

  lemma WeekdaysOfWeek(s: int, days: seq<int>)
    requires Weekday(s) == 0 && |days| == 7
    requires forall i :: 0 <= i < 7 ==> days[i] == s + i
    ensures forall i :: 0 <= i < 7 ==> Weekday(days[i]) == i
  {
    var q := (s + 4) / 7;
    assert s + 4 == 7 * q;
    forall i | 0 <= i < 7 ensures Weekday(days[i]) == i {
      ModUnique(s + i + 4, q, i);
    }
  }

  /** A day heading: the day, whether it is today, and its holiday badge. */
  datatype HeaderCell = HeaderCell(day: int, isToday: bool, holiday: Option<Holiday>)

  /** The header and the time grid. `grid[h][i]` is the cell of hour `h` on
      the `i`-th day of the week. */
  method Render(current: Instant, sessions: seq<Session>, holidays: seq<Holiday>, today: int)
    returns (header: seq<HeaderCell>, grid: seq<seq<seq<Session>>>)
    ensures |header| == 7
    ensures forall i :: 0 <= i < 7 ==> var d := WeekDays(current)[i];
      header[i] == HeaderCell(d, d == today, LastHoliday(holidays, d))
    ensures |grid| == HoursPerDay
    ensures forall h :: 0 <= h < HoursPerDay ==> |grid[h]| == 7
    ensures forall h, i :: 0 <= h < HoursPerDay && 0 <= i < 7 ==>
      grid[h][i] == Filter(sessions, StartsAt(WeekDays(current)[i], h))
  {
    var days := WeekDays(current);
    var sessionsByDate := GroupSessionsByDate(sessions);
    var holidaysByDate := IndexHolidaysByDate(holidays);
    header := seq(7, i requires 0 <= i < 7 => HeaderCell(days[i], days[i] == today, HolidayFor(holidaysByDate, days[i])));
    var hours := Hours();
    grid := seq(HoursPerDay, h requires 0 <= h < HoursPerDay =>
      seq(7, i requires 0 <= i < 7 => HourCell(days[i], hours[h], SessionsFor(sessionsByDate, days[i]))));
    forall h, i | 0 <= h < HoursPerDay && 0 <= i < 7
      ensures grid[h][i] == Filter(sessions, StartsAt(days[i], h))
    {
      HourCellIsStartHour(sessions, days[i], h);
    }
  }

  /** Each session of the week shows up in exactly one cell of the grid:
      the row of its start hour, the column of its start day. */
  lemma OneCellPerSession(current: Instant, sessions: seq<Session>, grid: seq<seq<seq<Session>>>, s: Session)
    requires |grid| == HoursPerDay && forall h :: 0 <= h < HoursPerDay ==> |grid[h]| == 7
    requires forall h, i :: 0 <= h < HoursPerDay && 0 <= i < 7 ==>
      grid[h][i] == Filter(sessions, StartsAt(WeekDays(current)[i], h))
    requires s in sessions && StartDay(s) in WeekDays(current)
    ensures forall h, i :: 0 <= h < HoursPerDay && 0 <= i < 7 ==>
      (s in grid[h][i] <==> h == HourOf(s.start) && WeekDays(current)[i] == StartDay(s))
  {
  }
}
