/** Time as the scheduler sees it. Instants are integers (seconds since
    1970-01-01T00:00 UTC); a zone-aware datetime is an instant together with the
    UTC offset of its zone at that instant, so its wall-clock reading is their sum.
    The time-zone database itself is not modelled: the few answers the scheduler
    needs from it are supplied as a `TimeLib` value. */
module Time {
  import opened Results

  const SecondsPerMinute := 60
  const SecondsPerHour := 3600
  const SecondsPerDay := 86400

  /** The two zones the scorer converts every candidate into. */
  const IndiaZone := "Asia/Kolkata"
  const GermanyZone := "Europe/Berlin"

  /** A zone-aware datetime: the instant it denotes and the UTC offset (seconds)
      of the zone it is expressed in. */
  datatype Stamp = Stamp(instant: int, offset: int) {
    /** Wall-clock reading in the stamp's own zone, as seconds since local 1970-01-01T00:00. */
    function Wall(): int {
      instant + offset
    }
  }

  /** Hour of the day (0..23) of a wall-clock reading. */
  function HourOf(wall: int): (h: int)
    ensures 0 <= h < 24
    ensures DateOf(wall) * SecondsPerDay + h * SecondsPerHour <= wall
    ensures wall < DateOf(wall) * SecondsPerDay + (h + 1) * SecondsPerHour
  {
    (wall % SecondsPerDay) / SecondsPerHour
  }

  /** Calendar day number of a wall-clock reading; local 1970-01-01 is day 0. */
  function DateOf(wall: int): int {
    wall / SecondsPerDay
  }

  /** Day of the week with Monday = 0 and Sunday = 6; day 0 was a Thursday. */
  function WeekdayOf(wall: int): (d: int)
    ensures 0 <= d < 7
  {
    (DateOf(wall) + 3) % 7
  }

  /** 1970-01-01 was a Thursday (3). */
  lemma EpochWasThursday(wall: int)
    requires 0 <= wall < SecondsPerDay
    ensures WeekdayOf(wall) == 3
  {
  }

  /** One day later is the next weekday, Sunday (6) wrapping to Monday (0). */
  lemma WeekdayAdvances(wall: int)
    ensures WeekdayOf(wall + SecondsPerDay) == (WeekdayOf(wall) + 1) % 7
  {
    assert DateOf(wall + SecondsPerDay) == DateOf(wall) + 1;
  }

  /** Day 20250, 2025-06-11, was a Wednesday (2). */
  lemma WeekdayOfKnownDate()
    ensures WeekdayOf(20250 * SecondsPerDay) == 2
  {
  }

  /** What the scheduler asks of the date-time and zone libraries.
      - readWall: reads "YYYY-MM-DD HH:MM" text as a wall-clock reading, None when malformed;
      - zoneExists: whether a zone key names a known zone;
      - offsetForWall: the UTC offset attaching a zone to a wall-clock reading gives it;
      - offsetAt: the UTC offset of a zone at an instant (conversion into that zone). */
  datatype TimeLib = TimeLib(
    readWall: string -> Option<int>,
    zoneExists: string -> bool,
    offsetForWall: (string, int) -> int,
    offsetAt: (string, int) -> int)

  /** The instant `instant` expressed in `zone`. */
  function InZone(lib: TimeLib, zone: string, instant: int): (s: Stamp)
    ensures s.instant == instant
    ensures s.Wall() == instant + lib.offsetAt(zone, instant)
  {
    Stamp(instant, lib.offsetAt(zone, instant))
  }

  /** The wall-clock reading `wall` attached to `zone`. */
  function Localize(lib: TimeLib, zone: string, wall: int): (s: Stamp)
    ensures s.Wall() == wall
    ensures s.offset == lib.offsetForWall(zone, wall)
  {
    var off := lib.offsetForWall(zone, wall);
    Stamp(wall - off, off)
  }
}
