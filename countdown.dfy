/** The header countdown (components/CountdownTimer.tsx, `calculateTime`):
    the time left until the next refresh at 15:30:00.000 UTC (9 PM IST).
    Instants are integer milliseconds since the epoch, as JavaScript time
    values are; UTC has no daylight saving time and no leap seconds there. */
module Countdown {
  import opened Text

  const MsPerSecond: int := 1000
  const MsPerMinute: int := 60 * MsPerSecond
  const MsPerHour: int := 60 * MsPerMinute
  const MsPerDay: int := 24 * MsPerHour

  /** The day number of an instant. Dafny's `/` by a positive divisor rounds
      down, as the floor in the JavaScript definition does, also before 1970. */
  function Day(t: int): (d: int)
    ensures d * MsPerDay <= t < (d + 1) * MsPerDay
  {
    t / MsPerDay
  }

  /** Milliseconds since midnight UTC, in [0, MsPerDay). */
  function TimeWithinDay(t: int): (r: int)
    ensures 0 <= r < MsPerDay
    ensures t == Day(t) * MsPerDay + r
  {
    t % MsPerDay
  }

  function MakeTime(hour: int, min: int, sec: int, ms: int): int {
    hour * MsPerHour + min * MsPerMinute + sec * MsPerSecond + ms
  }

  function MakeDate(day: int, time: int): int {
    day * MsPerDay + time
  }

  /** `d.setUTCHours(hour, min, sec, ms)`: same UTC day, new time of day. */
  function SetUTCHours(t: int, hour: int, min: int, sec: int, ms: int): (r: int)
    ensures 0 <= MakeTime(hour, min, sec, ms) < MsPerDay ==>
      Day(r) == Day(t) && TimeWithinDay(r) == MakeTime(hour, min, sec, ms)
  {
    MakeDate(Day(t), MakeTime(hour, min, sec, ms))
  }

  /** `d.setUTCDate(d.getUTCDate() + 1)`: the next UTC day, same time of day
      (a date past the month's end rolls over into the next month). */
  function SetUTCDateNext(t: int): (r: int)
    ensures r == t + MsPerDay
  {
    MakeDate(Day(t) + 1, TimeWithinDay(t))
  }

  /** 15:30:00.000, as milliseconds since midnight. */
  const RefreshTimeOfDay: int := MakeTime(15, 30, 0, 0)

  /** The next refresh instant: the first instant at or after `now` whose
      time of day is 15:30:00.000 UTC. */
  function NextUpdate(now: int): (r: int)
    ensures TimeWithinDay(r) == RefreshTimeOfDay
    ensures now <= r < now + MsPerDay
  {
    now + (RefreshTimeOfDay - TimeWithinDay(now)) % MsPerDay
  }

  /** The refresh is on `now`'s UTC day, or on the next one when `now` is
      strictly later than 15:30 on its day; no earlier refresh lies ahead. */
  lemma NextUpdateIsNext(now: int, t: int)
    ensures Day(NextUpdate(now)) == Day(now) + (if TimeWithinDay(now) > RefreshTimeOfDay then 1 else 0)
    ensures now <= t && TimeWithinDay(t) == RefreshTimeOfDay ==> NextUpdate(now) <= t
  {
  }

  /** The two steps of `calculateTime` on the Date reach the next refresh:
      15:30 on `now`'s day, moved one day on when `now` is strictly later. */
  lemma DateStepsReachNextUpdate(now: int)
    ensures var sameDay := SetUTCHours(now, 15, 30, 0, 0);
      NextUpdate(now) == if now > sameDay then SetUTCDateNext(sameDay) else sameDay
  {
    var d := Day(now);
    assert now == d * MsPerDay + TimeWithinDay(now);
    assert SetUTCHours(now, 15, 30, 0, 0) == d * MsPerDay + RefreshTimeOfDay;
  }

  /** A duration under a day has fewer than 24 whole hours. */
  lemma HoursBelowDay(diff: int)
    requires 0 <= diff < MsPerDay
    ensures diff / MsPerHour <= 23
  {
  }

  /** `hours`, `minutes`, `seconds` are the whole hours, minutes and seconds
      of `diff`, each of the last two below 60. */
  ghost predicate IsDecomposition(diff: int, hours: int, minutes: int, seconds: int) {
    && 0 <= minutes < 60
    && 0 <= seconds < 60
    && hours * MsPerHour + minutes * MsPerMinute + seconds * MsPerSecond <= diff
    && diff < hours * MsPerHour + minutes * MsPerMinute + (seconds + 1) * MsPerSecond
  }

  /** A duration has only one such decomposition. */
  lemma DecompositionUnique(diff: int, h: int, m: int, s: int, h': int, m': int, s': int)
    requires IsDecomposition(diff, h, m, s) && IsDecomposition(diff, h', m', s')
    ensures h == h' && m == m' && s == s'
  {
  }

  /** The remainder by a minute is the unique one: `x == q * MsPerMinute + r` with `0 <= r < MsPerMinute`. */
  lemma MinuteRemainderUnique(x: int, q: int, r: int)
    requires x == q * MsPerMinute + r && 0 <= r < MsPerMinute
    ensures x % MsPerMinute == r
  {
  }

  /** Floor division by an hour, and remainders by an hour and by a minute,
      split a non-negative duration into its hours, minutes and seconds. */
  lemma DivModDecomposes(diff: int)
    requires 0 <= diff
    ensures IsDecomposition(diff, diff / MsPerHour, (diff % MsPerHour) / MsPerMinute, (diff % MsPerMinute) / MsPerSecond)
  {
    var h, r1 := diff / MsPerHour, diff % MsPerHour;
    var m, r2 := r1 / MsPerMinute, r1 % MsPerMinute;
    var s := r2 / MsPerSecond;
    assert r1 == m * MsPerMinute + r2 && m < 60;
    assert diff == (h * 60 + m) * MsPerMinute + r2;
    MinuteRemainderUnique(diff, h * 60 + m, r2);
    assert r2 == s * MsPerSecond + r2 % MsPerSecond;
  }

  /** The text shown: `${hours}h ${minutes}m ${seconds}s`. */
  function TimeLeftText(hours: nat, minutes: nat, seconds: nat): (r: string)
    ensures DecimalString(hours) + "h " <= r
    ensures r[|r| - 1] == 's'
  {
    DecimalString(hours) + "h " + DecimalString(minutes) + "m " + DecimalString(seconds) + "s"
  }

  /** Regroups the shown text as numeral, separator letter, rest. */
  lemma TextShape(a: string, b: string, c: string)
    ensures a + "h " + b + "m " + c + "s" == a + ['h'] + (" " + (b + ['m'] + (" " + (c + ['s'] + ""))))
  {
  }

  /** A numeral followed by a letter can be read off the front of a text. */
  lemma PeelNumeral(n: nat, n': nat, sep: char, x: string, y: string)
    requires !IsDigit(sep)
    requires DecimalString(n) + [sep] + x == DecimalString(n') + [sep] + y
    ensures n == n' && x == y
  {
    DigitsBeforeSeparator(DecimalString(n), DecimalString(n'), sep, x, y);
    DecimalStringInjective(n, n');
  }

  /** The shown text determines the hours, minutes and seconds. */
  lemma TimeLeftTextInjective(h: nat, m: nat, s: nat, h': nat, m': nat, s': nat)
    requires TimeLeftText(h, m, s) == TimeLeftText(h', m', s')
    ensures h == h' && m == m' && s == s'
  {
    var restS, restS' := DecimalString(s) + ['s'] + "", DecimalString(s') + ['s'] + "";
    var restM, restM' := DecimalString(m) + ['m'] + (" " + restS), DecimalString(m') + ['m'] + (" " + restS');
    TextShape(DecimalString(h), DecimalString(m), DecimalString(s));
    TextShape(DecimalString(h'), DecimalString(m'), DecimalString(s'));
    PeelNumeral(h, h', 'h', " " + restM, " " + restM');
    assert restM == (" " + restM)[1..] == (" " + restM')[1..] == restM';
    PeelNumeral(m, m', 'm', " " + restS, " " + restS');
    assert restS == (" " + restS)[1..] == (" " + restS')[1..] == restS';
    PeelNumeral(s, s', 's', "", "");
  }

  /** `calculateTime`: place a copy of `now` at 15:30 UTC of its day, move it
      one day on when `now` is strictly later, and split the difference into
      hours, minutes and seconds with floor division and remainder. */
  method CalculateTime(now: int) returns (diff: int, hours: nat, minutes: nat, seconds: nat, timeLeft: string)
    ensures diff == NextUpdate(now) - now
    ensures 0 <= diff < MsPerDay
    ensures hours <= 23
    ensures IsDecomposition(diff, hours, minutes, seconds)
    ensures timeLeft == TimeLeftText(hours, minutes, seconds)
  {
    var nextUpdate := SetUTCHours(now, 15, 30, 0, 0);
    if now > nextUpdate {
      nextUpdate := SetUTCDateNext(nextUpdate);
    }
    DateStepsReachNextUpdate(now);
    diff := nextUpdate - now;
    DivModDecomposes(diff);
    HoursBelowDay(diff);
    // diff is never negative, so JavaScript's Math.floor of the quotient and
    // its truncating % agree with Dafny's / and %.
    hours := diff / MsPerHour;
    minutes := (diff % MsPerHour) / MsPerMinute;
    seconds := (diff % MsPerMinute) / MsPerSecond;
    timeLeft := DecimalString(hours) + "h " + DecimalString(minutes) + "m " + DecimalString(seconds) + "s";
  }

  /** At exactly 15:30:00.000 UTC the next refresh is now, since the
      comparison is strict, and "0h 0m 0s" is shown. */
  lemma AtRefreshInstant(now: int, hours: nat, minutes: nat, seconds: nat)
    requires TimeWithinDay(now) == RefreshTimeOfDay
    requires IsDecomposition(NextUpdate(now) - now, hours, minutes, seconds)
    ensures NextUpdate(now) == now
    ensures hours == 0 && minutes == 0 && seconds == 0
    ensures TimeLeftText(hours, minutes, seconds) == "0h 0m 0s"
  {
  }
}
