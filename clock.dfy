/** Clock values as integer milliseconds since 1970-01-01T00:00:00Z: the number `Date.now()`
    returns and `new Date(iso).getTime()` reads back from an ISO-8601 string. */
module Clock {

  const MillisPerDay: nat := 86_400_000

  /** Days from 1970-01-01 to the given proleptic Gregorian date (the civil-from-days inverse). */
  function DaysFromCivil(year: nat, month: nat, day: nat): int
    requires 1 <= year && 1 <= month <= 12 && 1 <= day <= 31
  {
    var y := if month <= 2 then year - 1 else year;
    var era := y / 400;
    var yoe := y - era * 400;
    var mp := if month > 2 then month - 3 else month + 9;
    var doy := (153 * mp + 2) / 5 + day - 1;
    var doe := yoe * 365 + yoe / 4 - yoe / 100 + doy;
    era * 146097 + doe - 719468
  }

  /** The instant an ISO-8601 UTC timestamp `YYYY-MM-DDThh:mm:ssZ` denotes. */
  function Utc(year: nat, month: nat, day: nat, hour: nat, minute: nat, second: nat): int
    requires 1 <= year && 1 <= month <= 12 && 1 <= day <= 31 && hour < 24 && minute < 60 && second < 60
  {
    DaysFromCivil(year, month, day) * MillisPerDay + ((hour * 60 + minute) * 60 + second) * 1000
  }

  /** `new Date(new Date(now).toISOString().slice(0, 10)).getTime()`: midnight UTC of the day of `now`. */
  function DayStart(now: nat): (r: nat)
    ensures r <= now < r + MillisPerDay
    ensures r % MillisPerDay == 0
  {
    now - now % MillisPerDay
  }
}
