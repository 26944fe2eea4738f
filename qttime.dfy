/**
 * The part of Qt's `QTime` that workout rows use for their durations: a
 * time of day with one-second resolution, or the null time that an invalid
 * construction produces.
 */
module QtTime {

  const SecondsPerDay: nat := 86400

  /** A valid time of day, as seconds since midnight, or the null time. */
  datatype QTime = Time(secs: nat) | NullTime

  predicate IsValid(t: QTime)
  {
    t.Time? && t.secs < SecondsPerDay
  }

  /** `QTime(h, m, s)`: valid only for 0..23 hours, 0..59 minutes and 0..59 seconds. */
  function MakeTime(h: int, m: int, s: int): (t: QTime)
    ensures t.Time? <==> 0 <= h < 24 && 0 <= m < 60 && 0 <= s < 60
    ensures t.Time? ==> IsValid(t) && t.secs == 3600 * h + 60 * m + s
  {
    if 0 <= h < 24 && 0 <= m < 60 && 0 <= s < 60 then Time(3600 * h + 60 * m + s) else NullTime
  }

  /** `QTime(0, 0, 0)`. */
  const Midnight: QTime := MakeTime(0, 0, 0)

  /** `t.addSecs(n)`: wraps around midnight in both directions; the null time stays null. */
  function AddSecs(t: QTime, n: int): (r: QTime)
    ensures t.NullTime? <==> r.NullTime?
    ensures r.Time? ==> IsValid(r)
  {
    match t
    case NullTime => NullTime
    case Time(s) => Time((s + n) % SecondsPerDay)
  }

  /** The result differs from plain addition by whole days. */
  lemma AddSecsWholeDays(t: QTime, n: int)
    requires t.Time?
    ensures (AddSecs(t, n).secs - t.secs - n) % SecondsPerDay == 0
  {
  }

  /** Within one day, adding seconds to a valid time is plain addition. */
  lemma AddSecsNoWrap(t: QTime, n: int)
    requires t.Time? && 0 <= t.secs + n < SecondsPerDay
    ensures AddSecs(t, n) == Time(t.secs + n)
  {
  }

  /** Less than a day's seconds added to midnight give that many seconds past midnight. */
  lemma AddSecsFromMidnight(n: int)
    requires 0 <= n < SecondsPerDay
    ensures AddSecs(Midnight, n) == Time(n)
  {
    assert Midnight == Time(0);
  }

  /** Seconds since midnight; zero for the null time. */
  function Seconds(t: QTime): nat
  {
    if t.Time? then t.secs else 0
  }
}
