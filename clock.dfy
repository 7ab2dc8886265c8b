/** The clock, as the model sees it: dates are day numbers (day 0 is
    1970-01-01, a Thursday) and a timestamp is a day, an hour and the time
    elapsed within that hour. The current date and time are always passed
    in as parameters. */
module Clock {

  /** An hour of the day, as `strftime('%H', ...)` reads it. */
  type Hour = h: int | 0 <= h < 24

  /** A `datetime`: its date, its hour, and the microseconds past the hour. */
  datatype Timestamp = Timestamp(day: int, hour: Hour, offset: nat)

  /** `a <= b` in time, which is also the order of their ISO text forms. */
  predicate NotAfter(a: Timestamp, b: Timestamp) {
    a.day < b.day || (a.day == b.day && (a.hour < b.hour || (a.hour == b.hour && a.offset <= b.offset)))
  }

  /** SQLite's weekday number: 0 is Sunday. */
  function Weekday(day: int): (w: int)
    ensures 0 <= w < 7
    ensures w == 0 <==> (day - 3) % 7 == 0
  {
    (day + 4) % 7
  }

  /** `date('now', 'weekday 0', '-7 days')`: move forward to the next Sunday
      (staying put on a Sunday), then back one week. The result is the most
      recent Sunday strictly before `today`. */
  function WeekStart(today: int): (s: int)
    ensures s < today <= s + 7
    ensures Weekday(s) == 0
    ensures forall d :: s < d < today ==> Weekday(d) != 0
  {
    var sunday := today + (7 - Weekday(today)) % 7;
    var s := sunday - 7;
    assert Weekday(s) == 0;
    s
  }
}
