/**
 * Moscow time over integer instants: a constant offset of three hours, days counted from 1 January 1970, a Thursday.
 */
module Calendar {
  import opened Domain

  const WORKDAY_START := 8 * 60
  const WORKDAY_END := 17 * 60
  const MOSCOW_OFFSET := 180 * MINUTE
  const DAY := 1440 * MINUTE

  function DayOf(t: Instant): int {
    (t + MOSCOW_OFFSET) / DAY
  }

  function MinuteOf(t: Instant): int {
    (t + MOSCOW_OFFSET) % DAY / MINUTE
  }

  /** The instant of a minute of a day. */
  function At(day: int, minute: int): Instant {
    day * DAY + minute * MINUTE - MOSCOW_OFFSET
  }

  predicate Weekend(day: int) {
    (day + 4) % 7 == 0 || (day + 4) % 7 == 6
  }

  function SlotDuration(country: Country): nat {
    match country
    case RF => 20
    case CN => 30
  }

  function End(start: Instant, minutes: int): Instant {
    start + minutes * MINUTE
  }

  predicate Overlap(s: Instant, e: Instant, s': Instant, e': Instant) {
    s < e' && e > s'
  }

  /** The appointment lies in the working hours of a weekday; seconds are not looked at. */
  predicate InWorkday(start: Instant, minutes: int) {
    !Weekend(DayOf(start)) && WORKDAY_START <= MinuteOf(start) && MinuteOf(start) + minutes <= WORKDAY_END
  }

  lemma AtIsOf(day: int, minute: int)
    requires 0 <= minute < 1440
    ensures DayOf(At(day, minute)) == day && MinuteOf(At(day, minute)) == minute
  {
    assert At(day, minute) + MOSCOW_OFFSET == day * DAY + minute * MINUTE;
  }

  /** An appointment inside working hours stays inside its calendar day. */
  lemma WorkdayInsideDay(start: Instant, minutes: int)
    requires InWorkday(start, minutes) && minutes >= 0
    ensures At(DayOf(start), 0) < start && End(start, minutes) < At(DayOf(start) + 1, 0)
  {
    var day, rest := DayOf(start), (start + MOSCOW_OFFSET) % DAY;
    assert start + MOSCOW_OFFSET == day * DAY + rest;
    assert MinuteOf(start) * MINUTE <= rest < (MinuteOf(start) + 1) * MINUTE;
  }

  /** The start times offered in a day, in minutes. */
  predicate OnGrid(country: Country, minute: int) {
    && WORKDAY_START <= minute && minute + SlotDuration(country) <= WORKDAY_END
    && (minute - WORKDAY_START) % SlotDuration(country) == 0
  }

  lemma GridInWorkday(country: Country, day: int, minute: int)
    requires OnGrid(country, minute) && !Weekend(day)
    ensures InWorkday(At(day, minute), SlotDuration(country)) && DayOf(At(day, minute)) == day
  {
    AtIsOf(day, minute);
  }
}
