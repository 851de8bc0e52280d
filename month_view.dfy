/** The month grid (src/components/calendar/CalendarMonthView.jsx): whole
    weeks from the Sunday on or before the first of the month to the Saturday
    on or after its last day, one cell per day. */
module MonthView {
  import opened Wrappers
  import opened LocalTime
  import opened Schedule
  import opened DayBuckets

  /** How many sessions a day cell lists before the "+N more" button. */
  const ShownPerDay: int := 3

  /** `eachDayOfInterval` from `startOfWeek(monthStart)` to `endOfWeek(monthEnd)`. */
  function GridDays(month: MonthSpan): (days: seq<int>)
    requires month.Valid()
    ensures |days| % 7 == 0 && 28 <= |days| <= 42
    ensures days[0] == WeekStartDay(month.firstDay) && Weekday(days[0]) == 0
    ensures days[|days| - 1] == WeekEndDay(month.LastDay()) && Weekday(days[|days| - 1]) == 6
    ensures forall i :: 0 <= i < |days| ==> days[i] == days[0] + i
    ensures forall d :: month.Contains(d) ==> days[0] <= d <= days[|days| - 1]
    ensures month.firstDay - 7 < days[0] && days[|days| - 1] < month.LastDay() + 7
  {
    var s := WeekStartDay(month.firstDay);
    var e := WeekEndDay(month.LastDay());
    GridLength(s, e);
    seq(e - s + 1, i => s + i)
  }

  /** A Sunday-to-Saturday span is a whole number of weeks. */
  lemma GridLength(s: int, e: int)
    requires Weekday(s) == 0 && Weekday(e) == 6 && s <= e
    ensures (e - s + 1) % 7 == 0
  {
    var q0 := (s + 4) / 7;
    var q1 := (e + 4) / 7;
    assert s + 4 == 7 * q0;
    assert e + 4 == 7 * q1 + 6;
    ModUnique(e - s + 1, q1 - q0 + 1, 0);
  }

  /** One day of the grid as rendered. `shown` are the first three sessions of
      the day, `more` the count on the "+N more" button when there is one, and
      `daySessions` what that button hands to the sessions dialog. */
  datatype MonthCell = MonthCell(
    day: int,
    inMonth: bool,
    isToday: bool,
    holiday: Option<Holiday>,
    shown: seq<Session>,
    more: Option<int>,
    daySessions: seq<Session>)

  function CellOf(day: int, daySessions: seq<Session>, holiday: Option<Holiday>, month: MonthSpan, today: int): (c: MonthCell)
    ensures c.day == day && c.daySessions == daySessions && c.holiday == holiday
    ensures c.inMonth <==> month.Contains(day)
    ensures c.isToday <==> day == today
    ensures |c.shown| <= ShownPerDay && c.shown <= daySessions
    ensures c.more.Some? <==> |daySessions| > ShownPerDay
    ensures c.more.Some? ==> c.more.value > 0 && |c.shown| + c.more.value == |daySessions|
    ensures c.more.None? ==> c.shown == daySessions
    ensures c.shown == daySessions[..if |daySessions| > ShownPerDay then ShownPerDay else |daySessions|]
    ensures c.more.Some? ==> c.more.value == |daySessions| - ShownPerDay
  {
    var n := |daySessions|;
    MonthCell(day, month.Contains(day), day == today, holiday,
      if n > ShownPerDay then daySessions[..ShownPerDay] else daySessions,
      if n > ShownPerDay then Some(n - ShownPerDay) else None,
      daySessions)
  }

  /** The whole grid: the sessions and holidays are indexed by day once
      (`GroupSessionsByDate`, `IndexHolidaysByDate`), then each grid day is
      looked up. A day's holiday is the last loaded one of that day. */
  method Render(month: MonthSpan, sessions: seq<Session>, holidays: seq<Holiday>, today: int) returns (cells: seq<MonthCell>)
    requires month.Valid()
    ensures |cells| == |GridDays(month)|
    ensures forall i :: 0 <= i < |cells| ==> var d := GridDays(month)[i];
      cells[i] == CellOf(d, SessionsOn(sessions, d), LastHoliday(holidays, d), month, today)
  {
    var days := GridDays(month);
    var sessionsByDate := GroupSessionsByDate(sessions);
    var holidaysByDate := IndexHolidaysByDate(holidays);
    cells := seq(|days|, i requires 0 <= i < |days| =>
      CellOf(days[i], SessionsFor(sessionsByDate, days[i]), HolidayFor(holidaysByDate, days[i]), month, today));
  }

  /** The cell of the session's start day, in the current month, lists the
      session or offers it behind "+N more". */
  predicate Reaches(c: MonthCell, s: Session) {
    c.day == StartDay(s) && c.inMonth && s in c.daySessions && (s in c.shown || c.more.Some?)
  }

  /** Every session that starts on a day of the month is on the grid, and it
      is either among the cell's shown sessions or counted by "+N more". */
  lemma EverySessionReachable(month: MonthSpan, sessions: seq<Session>, holidays: seq<Holiday>, today: int, cells: seq<MonthCell>, s: Session)
    requires month.Valid()
    requires |cells| == |GridDays(month)|
    requires forall i :: 0 <= i < |cells| ==> var d := GridDays(month)[i];
      cells[i] == CellOf(d, SessionsOn(sessions, d), LastHoliday(holidays, d), month, today)
    requires s in sessions && month.Contains(StartDay(s))
    ensures exists i :: 0 <= i < |cells| && Reaches(cells[i], s)
  {
    var days := GridDays(month);
    var i := StartDay(s) - days[0];
    assert days[i] == StartDay(s);
    var c := cells[i];
    assert s in c.daySessions;
    if c.more.None? {
      assert c.shown == c.daySessions;
    }
    assert Reaches(cells[i], s);
  }
}
