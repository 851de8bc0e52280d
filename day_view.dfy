/** The single-day view (src/components/calendar/CalendarDayView.jsx): the
    day's heading with its holiday, then 24 hour rows, each listing the
    day's sessions that start in that hour in order of start time. */
module DayView {
  import opened Wrappers
  import opened LocalTime
  import opened Seqs
  import opened Schedule
  import opened HourSlots

  datatype DayPage = DayPage(day: int, isToday: bool, holiday: Option<Holiday>, rows: seq<seq<Session>>)

  /** The view of the day containing `current`. Unlike the month and week
      views, the holiday shown is the FIRST loaded holiday of the day. */
  function Render(current: Instant, sessions: seq<Session>, holidays: seq<Holiday>, today: int): (v: DayPage)
    ensures v.day == DayKey(current) && (v.isToday <==> v.day == today)
    ensures v.holiday == FirstHoliday(holidays, v.day)
    ensures |v.rows| == HoursPerDay
  {
    var day := DayKey(current);
    var sorted := SortByStart(SessionsOn(sessions, day));
    DayPage(day, day == today, FirstHoliday(holidays, day),
      seq(HoursPerDay, h requires 0 <= h < HoursPerDay => HourCell(day, h, sorted)))
  }

  /** Every hour row is in order of start time. */
  lemma RowsSorted(current: Instant, sessions: seq<Session>, holidays: seq<Holiday>, today: int, h: int)
    requires 0 <= h < HoursPerDay
    ensures SortedByStart(Render(current, sessions, holidays, today).rows[h])
  {
    var day := DayKey(current);
    var sorted := SortByStart(SessionsOn(sessions, day));
    FilterSorted(sorted, Touches(day, h));
    FilterSorted(SessionsForHour(day, h, sorted), StartsInHour(h));
  }

  /** Hour row `h` holds exactly the sessions that start in hour `h` of the
      day, each as often as it was loaded. */
  lemma RowContents(current: Instant, sessions: seq<Session>, holidays: seq<Holiday>, today: int, h: int)
    requires 0 <= h < HoursPerDay
    ensures multiset(Render(current, sessions, holidays, today).rows[h]) == multiset(Filter(sessions, StartsAt(DayKey(current), h)))
  {
    var day := DayKey(current);
    var daySessions := SessionsOn(sessions, day);
    var sorted := SortByStart(daySessions);
    var row := HourCell(day, h, sorted);
    var expected := Filter(sessions, StartsAt(day, h));
    assert Render(current, sessions, holidays, today).rows[h] == row;
    forall x ensures multiset(row)[x] == multiset(expected)[x] {
      if StartDay(x) == day && HourOf(x.start) == h {
        StartTouches(day, h, x);
      }
    }
    assert multiset(row) == multiset(expected);
  }

  /** Keeping some elements of a sequence sorted by start keeps it sorted. */
  lemma {:induction false} FilterSorted(s: seq<Session>, p: Session -> bool)
    requires SortedByStart(s)
    ensures SortedByStart(Filter(s, p))
  {
    if s != [] {
      assert SortedByStart(s[1..]);
      FilterSorted(s[1..], p);
      var rest := Filter(s[1..], p);
      if p(s[0]) {
        forall y | y in rest ensures s[0].start <= y.start {
          var k :| 0 <= k < |s[1..]| && s[1..][k] == y;
          assert s[k + 1] == y;
        }
        ConsSorted(s[0], rest);
      }
    }
  }

  lemma ConsSorted(x: Session, rest: seq<Session>)
    requires SortedByStart(rest)
    requires forall y :: y in rest ==> x.start <= y.start
    ensures SortedByStart([x] + rest)
  {
    var r := [x] + rest;
    forall i, j | 0 <= i < j < |r| ensures r[i].start <= r[j].start {
      assert r[j] == rest[j - 1];
      if i > 0 {
        assert r[i] == rest[i - 1];
      }
    }
  }
}
