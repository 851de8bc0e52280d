/** The calendar page (src/pages/Calendar.jsx): the current view and date,
    the visible date range, the sessions and holidays loaded for it, and the
    two dialogs the page opens. */
module CalendarPage {
  import opened Wrappers
  import opened LocalTime
  import opened Seqs
  import opened Schedule

  /** The page only ever sets the first three; `Other` stands for any other
      value, which the range calculation treats like a month. */
  datatype View = Month | Week | Day | Other

  /** The range of instants a view shows around `current`. `month` is the
      calendar month that contains `current`, as the date library reports it. */
  function DateRange(view: View, current: Instant, month: MonthSpan): (r: Range)
    requires month.Valid() && month.Contains(DayKey(current))
    ensures r.Contains(current)
    ensures view == Month || view == Other ==> forall t :: r.Contains(t) <==> month.Contains(DayKey(t))
    ensures view == Week ==> forall t :: r.Contains(t) <==> WeekStartDay(DayKey(current)) <= DayKey(t) < WeekStartDay(DayKey(current)) + 7
    ensures view == Week ==> Weekday(DayKey(r.start)) == 0 && Weekday(DayKey(r.end)) == 6
    ensures view == Day ==> forall t :: r.Contains(t) <==> DayKey(t) == DayKey(current)
  {
    match view
    case Month => Days(month.firstDay, month.LastDay())
    case Other => Days(month.firstDay, month.LastDay())
    case Week =>
      var d := DayKey(current);
      assert WeekEndDay(d) == WeekStartDay(d) + 6;
      Days(WeekStartDay(d), WeekEndDay(d))
    case Day => Days(DayKey(current), DayKey(current))
  }

  /** The page's test for keeping a fetched session: it starts in the range,
      ends in it, or spans it (all bounds inclusive). */
  predicate Visible(s: Session, r: Range) {
    (r.start <= s.start && s.start <= r.end)
    || (r.start <= s.end && s.end <= r.end)
    || (s.start <= r.start && r.end <= s.end)
  }

  /** For a session and a range that do not end before they start the test is
      exactly "the closed intervals overlap". */
  lemma VisibleIsOverlap(s: Session, r: Range)
    requires s.start <= s.end && r.start <= r.end
    ensures Visible(s, r) <==> s.start <= r.end && r.start <= s.end
  {
  }

  function VisibleIn(r: Range): Session -> bool {
    (s: Session) => Visible(s, r)
  }

  /** The sessions the page keeps from a response, in response order. */
  function VisibleSessions(all: seq<Session>, r: Range): (kept: seq<Session>)
    ensures forall s :: s in kept <==> s in all && Visible(s, r)
    ensures forall s :: multiset(kept)[s] == if Visible(s, r) then multiset(all)[s] else 0
    ensures IsSubsequence(kept, all)
  {
    Filter(all, VisibleIn(r))
  }

  /** The query sent for sessions: always the first page of at most 1000;
      sessions beyond it never reach the calendar. */
  const SessionsPage: int := 1
  const SessionsLimit: int := 1000

  /** The `startDate`/`endDate` of the holiday query: each end of the range
      converted to UTC (`toISOString`) and cut to its date. `utcOffset` is the
      local zone's offset from UTC in minutes (east positive). */
  function HolidayQuery(r: Range, utcOffset: int): (q: (int, int)) {
    (DayKey(r.start - utcOffset), DayKey(r.end - utcOffset))
  }

  /** Cutting the UTC instant rather than the local one may widen the query by
      a day at one end but never drops a visible day, for any real time zone
      (offsets under a day). */
  lemma HolidayQueryCovers(first: int, last: int, utcOffset: int)
    requires first <= last
    requires -MinutesPerDay < utcOffset < MinutesPerDay
    ensures var q := HolidayQuery(Days(first, last), utcOffset);
      q.0 <= first && last <= q.1 && first - 1 <= q.0 && q.1 <= last + 1
  {
    var q := HolidayQuery(Days(first, last), utcOffset);
    assert DayStart(first - 1) <= DayStart(first) - utcOffset <= DayEnd(first);
    assert DayStart(last) <= DayEnd(last) - utcOffset <= DayEnd(last + 1);
    assert q.0 == first - 1 || q.0 == first by {
      if utcOffset > 0 {
        assert DayStart(first - 1) <= DayStart(first) - utcOffset <= DayEnd(first - 1);
      } else {
        assert DayStart(first) <= DayStart(first) - utcOffset <= DayEnd(first);
      }
    }
    assert q.1 == last || q.1 == last + 1 by {
      if utcOffset >= 0 {
        assert DayStart(last) <= DayEnd(last) - utcOffset <= DayEnd(last);
      } else {
        assert DayStart(last + 1) <= DayEnd(last) - utcOffset <= DayEnd(last + 1);
      }
    }
  }

  /** Where the previous/next buttons move the current date. Months are
      shifted by the date library (`addMonths`/`subMonths`), whose result
      `monthShifted` is taken as given; weeks and days are fixed steps; any
      other view leaves the date alone. */
  function Stepped(view: View, current: Instant, forward: bool, monthShifted: Instant): (t: Instant)
    ensures view == Week ==> DayKey(t) == DayKey(current) + (if forward then 7 else -7)
    ensures view == Day ==> DayKey(t) == DayKey(current) + (if forward then 1 else -1)
    ensures view == Other ==> t == current
    ensures view != Month ==> HourOf(t) == HourOf(current)
    ensures view != Month ==> t % MinutesPerDay == current % MinutesPerDay
    ensures view == Month ==> t == monthShifted
  {
    var step := match view
      case Month => 0
      case Other => 0
      case Week => 7
      case Day => 1;
    var days := if forward then step else -step;
    var t := if view == Month then monthShifted else current + days * MinutesPerDay;
    ShiftDays(current, days);
    t
  }

  lemma ShiftDays(t: Instant, days: int)
    ensures DayKey(t + days * MinutesPerDay) == DayKey(t) + days
    ensures HourOf(t + days * MinutesPerDay) == HourOf(t)
    ensures (t + days * MinutesPerDay) % MinutesPerDay == t % MinutesPerDay
  {
    var d := DayKey(t);
    assert DayStart(d + days) <= t + days * MinutesPerDay <= DayEnd(d + days);
  }

  /** Going back and then forward (or the reverse) in week or day view
      returns to the same instant. */
  lemma StepBackAndForth(view: View, current: Instant, monthShifted: Instant)
    requires view != Month
    ensures Stepped(view, Stepped(view, current, false, monthShifted), true, monthShifted) == current
    ensures Stepped(view, Stepped(view, current, true, monthShifted), false, monthShifted) == current
  {
  }

  /** In week view a step moves the visible week by exactly seven days. */
  lemma WeekStepMovesWeek(current: Instant, forward: bool, monthShifted: Instant)
    ensures var t := Stepped(Week, current, forward, monthShifted);
      WeekStartDay(DayKey(t)) == WeekStartDay(DayKey(current)) + (if forward then 7 else -7)
  {
    var d := DayKey(current);
    var e := d + (if forward then 7 else -7);
    WeekdayShift(d, if forward then 1 else -1);
    assert Weekday(e) == Weekday(d);
  }

  lemma WeekdayShift(d: int, weeks: int)
    ensures Weekday(d + 7 * weeks) == Weekday(d)
  {
    var q := (d + 4) / 7;
    assert d + 4 == 7 * q + Weekday(d);
    ModUnique(d + 7 * weeks + 4, q + weeks, Weekday(d));
  }

  class CalendarState {
    var currentDate: Instant
    var view: View
    var sessions: seq<Session>
    var holidays: seq<Holiday>
    var loading: bool
    var selectedHoliday: Option<Holiday>
    var holidayDialogOpen: bool
    var selectedDate: Option<Instant>
    var sessionsDialogOpen: bool
    var selectedSessionsDate: Option<Instant>
    var selectedSessions: seq<Session>
    /** The range the loaded sessions were filtered against. */
    ghost var loadedRange: Range

    /** Every loaded session is visible in the range it was loaded for, and
        a selected holiday only exists while its dialog is open. */
    ghost predicate Valid()
      reads this
    {
      (forall s :: s in sessions ==> Visible(s, loadedRange))
      && (selectedHoliday.Some? ==> holidayDialogOpen)
    }

    /** The page as first rendered: month view of `now`, nothing loaded, the
        first fetch in flight. */
    constructor(now: Instant)
      ensures Valid()
      ensures currentDate == now && view == Month && loading
      ensures sessions == [] && holidays == []
      ensures selectedHoliday.None? && selectedDate.None? && !holidayDialogOpen
      ensures !sessionsDialogOpen && selectedSessionsDate.None? && selectedSessions == []
    {
      currentDate := now;
      view := Month;
      sessions := [];
      holidays := [];
      loading := true;
      selectedHoliday := None;
      holidayDialogOpen := false;
      selectedDate := None;
      sessionsDialogOpen := false;
      selectedSessionsDate := None;
      selectedSessions := [];
      loadedRange := Range(0, 0);
    }

    /** `fetchCalendarData` settling. A failed request stands in as an empty
        list (`.catch(() => ...)`), and so does a response without the list;
        only the sessions visible in `range` are kept. */
    method ReceiveData(sessionsResponse: Option<seq<Session>>, holidaysResponse: Option<seq<Holiday>>, range: Range)
      modifies this
      ensures Valid()
      ensures sessions == VisibleSessions(if sessionsResponse.Some? then sessionsResponse.value else [], range)
      ensures holidays == (if holidaysResponse.Some? then holidaysResponse.value else [])
      ensures !loading && loadedRange == range
      ensures currentDate == old(currentDate) && view == old(view)
      ensures selectedHoliday == old(selectedHoliday) && holidayDialogOpen == old(holidayDialogOpen)
      ensures selectedDate == old(selectedDate) && sessionsDialogOpen == old(sessionsDialogOpen)
      ensures selectedSessionsDate == old(selectedSessionsDate) && selectedSessions == old(selectedSessions)
      requires Valid()
    {
      var all := if sessionsResponse.Some? then sessionsResponse.value else [];
      sessions := VisibleSessions(all, range);
      holidays := if holidaysResponse.Some? then holidaysResponse.value else [];
      loadedRange := range;
      loading := false;
    }

    /** The outer `catch`: an error toast, the data as it was, loading over. */
    method FetchFailed()
      modifies this
      requires Valid()
      ensures Valid()
      ensures !loading
      ensures sessions == old(sessions) && holidays == old(holidays) && currentDate == old(currentDate) && view == old(view)
      ensures selectedHoliday == old(selectedHoliday) && holidayDialogOpen == old(holidayDialogOpen)
      ensures selectedDate == old(selectedDate) && sessionsDialogOpen == old(sessionsDialogOpen)
      ensures selectedSessionsDate == old(selectedSessionsDate) && selectedSessions == old(selectedSessions)
    {
      loading := false;
    }

    method SetView(v: View)
      modifies this
      requires Valid()
      ensures Valid()
      ensures view == v
      ensures currentDate == old(currentDate) && sessions == old(sessions) && holidays == old(holidays) && loading == old(loading)
      ensures selectedHoliday == old(selectedHoliday) && holidayDialogOpen == old(holidayDialogOpen)
      ensures selectedDate == old(selectedDate) && sessionsDialogOpen == old(sessionsDialogOpen)
      ensures selectedSessionsDate == old(selectedSessionsDate) && selectedSessions == old(selectedSessions)
    {
      view := v;
    }

    /** `handlePrevious`; `monthShifted` is `subMonths(currentDate, 1)`. */
    method Previous(monthShifted: Instant)
      modifies this
      requires Valid()
      ensures Valid()
      ensures currentDate == Stepped(view, old(currentDate), false, monthShifted)
      ensures view == old(view) && sessions == old(sessions) && holidays == old(holidays) && loading == old(loading)
      ensures selectedHoliday == old(selectedHoliday) && holidayDialogOpen == old(holidayDialogOpen)
      ensures selectedDate == old(selectedDate) && sessionsDialogOpen == old(sessionsDialogOpen)
      ensures selectedSessionsDate == old(selectedSessionsDate) && selectedSessions == old(selectedSessions)
    {
      match view
      case Month => currentDate := monthShifted;
      case Week => currentDate := currentDate - 7 * MinutesPerDay;
      case Day => currentDate := currentDate - MinutesPerDay;
      case Other =>
    }

    /** `handleNext`; `monthShifted` is `addMonths(currentDate, 1)`. */
    method Next(monthShifted: Instant)
      modifies this
      requires Valid()
      ensures Valid()
      ensures currentDate == Stepped(view, old(currentDate), true, monthShifted)
      ensures view == old(view) && sessions == old(sessions) && holidays == old(holidays) && loading == old(loading)
      ensures selectedHoliday == old(selectedHoliday) && holidayDialogOpen == old(holidayDialogOpen)
      ensures selectedDate == old(selectedDate) && sessionsDialogOpen == old(sessionsDialogOpen)
      ensures selectedSessionsDate == old(selectedSessionsDate) && selectedSessions == old(selectedSessions)
    {
      match view
      case Month => currentDate := monthShifted;
      case Week => currentDate := currentDate + 7 * MinutesPerDay;
      case Day => currentDate := currentDate + MinutesPerDay;
      case Other =>
    }

    /** `handleToday`; the clock reading is the parameter. */
    method Today(now: Instant)
      modifies this
      requires Valid()
      ensures Valid()
      ensures currentDate == now
      ensures view == old(view) && sessions == old(sessions) && holidays == old(holidays) && loading == old(loading)
      ensures selectedHoliday == old(selectedHoliday) && holidayDialogOpen == old(holidayDialogOpen)
      ensures selectedDate == old(selectedDate) && sessionsDialogOpen == old(sessionsDialogOpen)
      ensures selectedSessionsDate == old(selectedSessionsDate) && selectedSessions == old(selectedSessions)
    {
      currentDate := now;
    }

    /** `handleDateClick`: remember the date, pick the first loaded holiday
        of that day (if any) for editing, and open the holiday dialog. */
    method DateClick(date: Instant)
      modifies this
      requires Valid()
      ensures Valid()
      ensures selectedDate == Some(date) && holidayDialogOpen
      ensures selectedHoliday == FirstHoliday(holidays, DayKey(date))
      ensures currentDate == old(currentDate) && view == old(view) && sessions == old(sessions) && holidays == old(holidays) && loading == old(loading)
      ensures sessionsDialogOpen == old(sessionsDialogOpen)
      ensures selectedSessionsDate == old(selectedSessionsDate) && selectedSessions == old(selectedSessions)
    {
      selectedDate := Some(date);
      selectedHoliday := FirstHoliday(holidays, DayKey(date));
      holidayDialogOpen := true;
    }

    /** `handleHolidayDialogClose`: close and clear the dialog, then reload
        (which shows the spinner until `ReceiveData` or `FetchFailed`). */
    method HolidayDialogClose()
      modifies this
      requires Valid()
      ensures Valid()
      ensures !holidayDialogOpen && selectedHoliday.None? && selectedDate.None? && loading
      ensures currentDate == old(currentDate) && view == old(view) && sessions == old(sessions) && holidays == old(holidays)
      ensures sessionsDialogOpen == old(sessionsDialogOpen)
      ensures selectedSessionsDate == old(selectedSessionsDate) && selectedSessions == old(selectedSessions)
    {
      holidayDialogOpen := false;
      selectedHoliday := None;
      selectedDate := None;
      loading := true;
    }

    /** `handleViewMoreSessions`: open the day's sessions dialog. */
    method ViewMoreSessions(date: Instant, daySessions: seq<Session>)
      modifies this
      requires Valid()
      ensures Valid()
      ensures sessionsDialogOpen && selectedSessionsDate == Some(date) && selectedSessions == daySessions
      ensures currentDate == old(currentDate) && view == old(view) && sessions == old(sessions) && holidays == old(holidays) && loading == old(loading)
      ensures selectedHoliday == old(selectedHoliday) && holidayDialogOpen == old(holidayDialogOpen) && selectedDate == old(selectedDate)
    {
      selectedSessionsDate := Some(date);
      selectedSessions := daySessions;
      sessionsDialogOpen := true;
    }

    /** `handleSessionsDialogClose`. */
    method SessionsDialogClose()
      modifies this
      requires Valid()
      ensures Valid()
      ensures !sessionsDialogOpen && selectedSessionsDate.None? && selectedSessions == []
      ensures currentDate == old(currentDate) && view == old(view) && sessions == old(sessions) && holidays == old(holidays) && loading == old(loading)
      ensures selectedHoliday == old(selectedHoliday) && holidayDialogOpen == old(holidayDialogOpen) && selectedDate == old(selectedDate)
    {
      sessionsDialogOpen := false;
      selectedSessionsDate := None;
      selectedSessions := [];
    }
  }
}
