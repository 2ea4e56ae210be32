/**
 * Instants are integer milliseconds since the Unix epoch (`Date.getTime()`).
 * The browser's local time zone is a fixed offset in milliseconds that is added
 * to UTC to obtain local wall-clock time (daylight-saving changes are not
 * modelled). `setHours`/`getHours` work in local time, `toISOString` in UTC.
 */
module Time {
  const MS_PER_HOUR: int := 3_600_000
  const MS_PER_DAY: int := 86_400_000

  /** The local calendar day of `t`, as a day number. */
  function LocalDay(t: int, offset: int): int {
    (t + offset) / MS_PER_DAY
  }

  /** `d.setHours(0, 0, 0, 0)`: local midnight at the start of the day of `t`. */
  function DayStart(t: int, offset: int): (r: int)
    ensures r <= t < r + MS_PER_DAY
    ensures (r + offset) % MS_PER_DAY == 0
    ensures LocalDay(r, offset) == LocalDay(t, offset)
  {
    t - (t + offset) % MS_PER_DAY
  }

  /** `d.setHours(23, 59, 59, 999)`: the last millisecond of the local day of `t`. */
  function DayEnd(t: int, offset: int): (r: int)
    ensures t <= r < t + MS_PER_DAY
    ensures (r + 1 + offset) % MS_PER_DAY == 0
    ensures LocalDay(r, offset) == LocalDay(t, offset)
  {
    DayStart(t, offset) + MS_PER_DAY - 1
  }

  /** `new Date(t).getHours()`: the local hour of the day. */
  function HourOf(t: int, offset: int): (h: int)
    ensures 0 <= h < 24
    ensures DayStart(t, offset) + h * MS_PER_HOUR <= t < DayStart(t, offset) + (h + 1) * MS_PER_HOUR
  {
    ((t + offset) % MS_PER_DAY) / MS_PER_HOUR
  }

  /**
   * `new Date(t).toISOString().split('T')[0]`: the UTC calendar day of `t`.
   * The "YYYY-MM-DD" text is a one-to-one rendering of this day number.
   */
  function UtcDay(t: int): (d: int)
    ensures d * MS_PER_DAY <= t < (d + 1) * MS_PER_DAY
  {
    t / MS_PER_DAY
  }

  /** The day boundaries agree with the local calendar: t is at or after the start of the day of `s` iff its local day is not earlier. */
  lemma AfterDayStartIffLaterDay(s: int, t: int, offset: int)
    ensures DayStart(s, offset) <= t <==> LocalDay(s, offset) <= LocalDay(t, offset)
  {
    var ds := DayStart(s, offset);
    assert (ds + offset) == LocalDay(s, offset) * MS_PER_DAY;
  }

  /** t is at or before the end of the day of `e` iff its local day is not later. */
  lemma BeforeDayEndIffEarlierDay(e: int, t: int, offset: int)
    ensures t <= DayEnd(e, offset) <==> LocalDay(t, offset) <= LocalDay(e, offset)
  {
    var de := DayEnd(e, offset);
    assert (de + 1 + offset) == (LocalDay(e, offset) + 1) * MS_PER_DAY;
  }

  /**
   * The statistics' UTC day and the filter's local day part ways in every zone
   * whose offset is not a whole number of days: some instant has two different
   * day numbers.
   */
  lemma UtcAndLocalDayDiffer(offset: int)
    requires offset % MS_PER_DAY != 0
    ensures exists t :: UtcDay(t) != LocalDay(t, offset)
  {
    if offset < 0 {
      assert UtcDay(0) == 0;
      assert LocalDay(0, offset) < 0;
    } else {
      var t := MS_PER_DAY - offset % MS_PER_DAY;
      assert t + offset == (offset / MS_PER_DAY + 1) * MS_PER_DAY;
      assert UtcDay(t) == 0;
      assert LocalDay(t, offset) == offset / MS_PER_DAY + 1;
    }
  }

  /**
   * An instance: 05:00 on 10 January 2024 in UTC+9 is still 9 January in UTC,
   * so the two days differ for an instant in the first nine hours of a local day.
   */
  lemma JstMorningIsPreviousUtcDay()
    ensures var t := 1704758400000 + 20 * MS_PER_HOUR;  // 2024-01-09T20:00:00Z
            var jst := 9 * MS_PER_HOUR;
            UtcDay(t) + 1 == LocalDay(t, jst)
  {
  }
}
