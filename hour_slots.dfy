/** The hour rows of the week and day views. Both views first keep the
    sessions that touch the hour (`getSessionsForHour`) and then render only
    those whose start lies in that hour. */
module HourSlots {
  import opened LocalTime
  import opened Seqs
  import opened Schedule

  /** `setMinutes(setHours(day, hour), 0)`. */
  function HourStart(day: int, hour: int): Instant {
    DayStart(day) + hour * MinutesPerHour
  }

  /** `addHours(hourStart, 1)`. */
  function HourEnd(day: int, hour: int): Instant {
    HourStart(day, hour) + MinutesPerHour
  }

  /** The three-way test of `getSessionsForHour`: the session starts inside
      the hour, ends inside it, or covers it. */
  predicate TouchesHour(day: int, hour: int, s: Session) {
    var hs := HourStart(day, hour);
    var he := HourEnd(day, hour);
    (hs <= s.start && s.start < he) || (hs < s.end && s.end <= he) || (s.start <= hs && he <= s.end)
  }

  function Touches(day: int, hour: int): Session -> bool {
    (s: Session) => TouchesHour(day, hour, s)
  }

  /** For a session of positive length the test is exactly "the half-open
      intervals [start, end) and [hourStart, hourEnd) overlap". */
  lemma TouchesIsOverlap(day: int, hour: int, s: Session)
    requires s.start < s.end
    ensures TouchesHour(day, hour, s) <==> s.start < HourEnd(day, hour) && HourStart(day, hour) < s.end
  {
  }

  /** `getSessionsForHour(day, hour, list)`. */
  function SessionsForHour(day: int, hour: int, sessions: seq<Session>): (r: seq<Session>)
    ensures forall s :: s in r <==> s in sessions && TouchesHour(day, hour, s)
    ensures forall s :: multiset(r)[s] == if TouchesHour(day, hour, s) then multiset(sessions)[s] else 0
    ensures IsSubsequence(r, sessions)
  {
    Filter(sessions, Touches(day, hour))
  }

  /** `new Date(session.startTime).getHours() === hour`. */
  function StartsInHour(hour: int): Session -> bool {
    (s: Session) => HourOf(s.start) == hour
  }

  /** What one cell of the grid renders: the day's sessions that touch the
      hour, narrowed to those that start in it. */
  function HourCell(day: int, hour: int, daySessions: seq<Session>): seq<Session> {
    Filter(SessionsForHour(day, hour, daySessions), StartsInHour(hour))
  }

  function StartsAt(day: int, hour: int): Session -> bool {
    (s: Session) => StartDay(s) == day && HourOf(s.start) == hour
  }

  /** A session that starts in an hour of a day touches that hour. */
  lemma StartTouches(day: int, hour: int, s: Session)
    requires StartDay(s) == day && HourOf(s.start) == hour
    ensures TouchesHour(day, hour, s)
  {
  }

  /** The cell of (day, hour) shows exactly the sessions, in input order,
      that start in that hour of that day: the overlap test never adds
      anything, so a session spanning several hours appears only in the row
      of its start hour. */
  lemma {:induction false} HourCellIsStartHour(sessions: seq<Session>, day: int, hour: int)
    ensures HourCell(day, hour, SessionsOn(sessions, day)) == Filter(sessions, StartsAt(day, hour))
  {
    if sessions != [] {
      var s := sessions[0];
      var rest := sessions[1..];
      HourCellIsStartHour(rest, day, hour);
      if StartDay(s) == day && HourOf(s.start) == hour {
        StartTouches(day, hour, s);
      }
    }
  }

  /** Every session in a cell belongs there by its start. */
  lemma HourCellMember(sessions: seq<Session>, day: int, hour: int, s: Session)
    ensures s in HourCell(day, hour, SessionsOn(sessions, day)) <==> s in sessions && StartDay(s) == day && HourOf(s.start) == hour
  {
    HourCellIsStartHour(sessions, day, hour);
  }

  /** The 24 hour rows, 0 through 23 (`HOURS`). */
  function Hours(): (r: seq<int>)
    ensures |r| == HoursPerDay
    ensures forall i :: 0 <= i < |r| ==> r[i] == i
  {
    seq(HoursPerDay, i => i)
  }

  /** Distinct hours of one day hold disjoint sets of sessions, and together
      they hold every session of the day. */
  lemma HourCellsPartitionDay(sessions: seq<Session>, day: int, s: Session)
    requires s in sessions && StartDay(s) == day
    ensures s in HourCell(day, HourOf(s.start), SessionsOn(sessions, day))
    ensures forall h :: h != HourOf(s.start) ==> s !in HourCell(day, h, SessionsOn(sessions, day))
  {
    HourCellMember(sessions, day, HourOf(s.start), s);
    forall h | h != HourOf(s.start) ensures s !in HourCell(day, h, SessionsOn(sessions, day)) {
      HourCellMember(sessions, day, h, s);
    }
  }
}
