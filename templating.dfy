/** Time-of-day wording offered to the news templates. The handlers hold the
    broadcast time already converted to the station's time zone; every
    property is a total function of its hour and minute. */
module Templating {

  type Hour = h: int | 0 <= h < 24
  type Minute = m: int | 0 <= m < 60

  /** The wall-clock fields of the station-local time. */
  datatype LocalTime = LocalTime(hour: Hour, minute: Minute)

  /** The values set once when the handlers are created. */
  datatype Handlers = Handlers(
    currentTime: LocalTime,
    stationName: string,
    stationCity: string,
    stationCountry: string,
    stationTimezoneName: string,
    newsreaderName: string,
    haveWeather: bool)

  /** The word table of `current_hour_24`, indexed by the hour 0..23. */
  const HourWords24: seq<string> := [
    "midnight", "one", "two", "three", "four", "five", "six", "seven", "eight", "nine", "ten", "eleven",
    "twelve", "thirteen", "fourteen", "fifteen", "sixteen", "seventeen", "eighteen", "nineteen", "twenty",
    "twenty-one", "twenty-two", "twenty-three"
  ]

  /** The word table of `current_hour_12`, indexed by the 12-hour clock value;
      index 0 holds the empty string. */
  const HourWords12: seq<string> := [
    "", "one", "two", "three", "four", "five", "six", "seven", "eight", "nine", "ten", "eleven", "twelve"
  ]

  /** `current_hour_24`: the table has an entry for every hour. */
  function CurrentHour24(h: Handlers): string
  {
    HourWords24[h.currentTime.hour]
  }

  /** The value of strftime's `%I`: the hour on a 12-hour clock face. */
  function Clock12(hour: Hour): int
  {
    if hour % 12 == 0 then 12 else hour % 12
  }

  /** `current_hour_12`. */
  function CurrentHour12(h: Handlers): string
  {
    HourWords12[Clock12(h.currentTime.hour)]
  }

  /** `current_minute`. */
  function CurrentMinute(h: Handlers): Minute
  {
    h.currentTime.minute
  }

  /** `period_of_day`. */
  function PeriodOfDay(h: Handlers): string
  {
    var hour := h.currentTime.hour;
    if 5 <= hour < 12 then "morning"
    else if 12 <= hour < 18 then "afternoon"
    else "evening"
  }

  /** `is_top_of_the_hour`. */
  function IsTopOfTheHour(h: Handlers): bool
  {
    h.currentTime.minute == 0
  }

  /** Handlers that differ from `h` only in the hour. */
  function AtHour(h: Handlers, hour: Hour): Handlers
  {
    h.(currentTime := h.currentTime.(hour := hour))
  }

  // ---------------------------------------------------------------------------
  // Properties
  // ---------------------------------------------------------------------------

  /** `%I` is the hour modulo 12 printed on a clock face 1..12. */
  lemma Clock12IsClockFace(hour: Hour)
    ensures 1 <= Clock12(hour) <= 12
    ensures Clock12(hour) % 12 == hour % 12
    ensures hour == 0 || hour == 12 <==> Clock12(hour) == 12
  {
  }

  /** The 12-hour word is never the empty table entry. */
  lemma CurrentHour12NeverEmpty(h: Handlers)
    ensures CurrentHour12(h) != ""
    ensures CurrentHour12(h) in HourWords24[1..13]
  {
    var c := Clock12(h.currentTime.hour);
    assert HourWords12[c] == HourWords24[c];
  }

  /** Midnight is the only hour whose 24-hour word is `midnight`. */
  lemma MidnightOnlyAtZero(h: Handlers)
    ensures CurrentHour24(h) == "midnight" <==> h.currentTime.hour == 0
  {
    var hour := h.currentTime.hour;
    if hour != 0 {
      assert HourWords24[hour] in HourWords24[1..];
    }
  }

  /** From one to twelve o'clock both tables give the same word. */
  lemma HourWordsAgree(h: Handlers)
    requires 1 <= h.currentTime.hour <= 12
    ensures CurrentHour24(h) == CurrentHour12(h)
  {
  }

  /** After noon the 12-hour word names the hour twelve hours earlier. */
  lemma AfternoonHourWord(h: Handlers)
    requires 13 <= h.currentTime.hour
    ensures CurrentHour12(h) == CurrentHour24(AtHour(h, h.currentTime.hour - 12))
  {
  }

  /** Every hour falls into exactly one of the three periods. */
  lemma PeriodsPartitionTheDay(h: Handlers)
    ensures PeriodOfDay(h) in {"morning", "afternoon", "evening"}
    ensures PeriodOfDay(h) == "morning" <==> 5 <= h.currentTime.hour <= 11
    ensures PeriodOfDay(h) == "afternoon" <==> 12 <= h.currentTime.hour <= 17
    ensures PeriodOfDay(h) == "evening" <==> h.currentTime.hour <= 4 || 18 <= h.currentTime.hour
  {
  }

  /** Across the day the period changes exactly at 05:00, 12:00 and 18:00. */
  lemma PeriodChangesAt(h: Handlers, hour: Hour)
    requires hour < 23
    ensures PeriodOfDay(AtHour(h, hour)) != PeriodOfDay(AtHour(h, hour + 1)) <==> hour + 1 in {5, 12, 18}
  {
  }

  /** It is the top of the hour exactly when the reported minute is zero. */
  lemma TopOfTheHour(h: Handlers)
    ensures IsTopOfTheHour(h) <==> CurrentMinute(h) == 0
  {
  }
}
