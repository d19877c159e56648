/**
 * The round-time gate. The round time arrives as "HH:mm:ss" text; it is put on
 * the current UTC date and compared with the current UTC instant. Because both
 * sit on the same date, only times of day matter: `now` is the number of
 * 100-nanosecond ticks since UTC midnight, the resolution of .NET's DateTime.
 */
module Clock {
  import opened Wrappers
  import opened Faults

  const TicksPerSecond: int := 10_000_000
  const SecondsPerDay: int := 86_400

  /** The default tolerance of the gate, in seconds. */
  const Tolerance: int := 8

  /** A UTC time of day in ticks. */
  type Instant = t: int | 0 <= t < 86_400 * 10_000_000

  /** A time of day in whole seconds. */
  type SecondOfDay = t: int | 0 <= t < 86_400

  predicate IsDigit(c: char) {
    '0' <= c <= '9'
  }

  function DigitValue(c: char): (d: int)
    requires IsDigit(c)
    ensures 0 <= d <= 9
  {
    c as int - '0' as int
  }

  /** The value of a two-digit field, if both characters are ASCII digits. */
  function TwoDigits(a: char, b: char): (r: Option<int>)
    ensures r.Some? <==> IsDigit(a) && IsDigit(b)
    ensures r.Some? ==> 0 <= r.value <= 99
  {
    if IsDigit(a) && IsDigit(b) then Some(10 * DigitValue(a) + DigitValue(b)) else None
  }

  /**
   * DateTime.TryParseExact with the format "HH:mm:ss", the invariant culture
   * and no style flags: exactly two digits per field, ':' separators, hours
   * 0..23, minutes and seconds 0..59, nothing before or after.
   */
  function ParseTimeOfDay(s: string): (r: Option<SecondOfDay>)
    ensures r.Some? ==> |s| == 8 && s[2] == ':' && s[5] == ':'
  {
    if |s| != 8 || s[2] != ':' || s[5] != ':' then None
    else
      match (TwoDigits(s[0], s[1]), TwoDigits(s[3], s[4]), TwoDigits(s[6], s[7]))
      case (Some(h), Some(m), Some(sec)) =>
        if h <= 23 && m <= 59 && sec <= 59 then Some(h * 3600 + m * 60 + sec) else None
      case _ => None
  }

  function Digit(d: int): (c: char)
    requires 0 <= d <= 9
    ensures IsDigit(c) && DigitValue(c) == d
  {
    ('0' as int + d) as char
  }

  /** The canonical "HH:mm:ss" text of a time of day. */
  function FormatTimeOfDay(t: SecondOfDay): (s: string)
    ensures |s| == 8
  {
    var h, m, sec := t / 3600, (t % 3600) / 60, t % 60;
    [Digit(h / 10), Digit(h % 10), ':', Digit(m / 10), Digit(m % 10), ':', Digit(sec / 10), Digit(sec % 10)]
  }

  /** Parsing the canonical text gives the time back. */
  lemma ParseFormatRoundTrip(t: SecondOfDay)
    ensures ParseTimeOfDay(FormatTimeOfDay(t)) == Some(t)
  {
    var s := FormatTimeOfDay(t);
    var h, m, sec := t / 3600, (t % 3600) / 60, t % 60;
    assert TwoDigits(s[0], s[1]) == Some(h);
    assert TwoDigits(s[3], s[4]) == Some(m);
    assert TwoDigits(s[6], s[7]) == Some(sec);
  }

  /** Every text the parser accepts is the canonical text of its value: no other spelling passes. */
  lemma ParsedTextIsCanonical(s: string)
    requires ParseTimeOfDay(s).Some?
    ensures FormatTimeOfDay(ParseTimeOfDay(s).value) == s
  {
    var h := TwoDigits(s[0], s[1]).value;
    var m := TwoDigits(s[3], s[4]).value;
    var sec := TwoDigits(s[6], s[7]).value;
    var t := h * 3600 + m * 60 + sec;
    assert t / 3600 == h && (t % 3600) / 60 == m && t % 60 == sec;
    var f := FormatTimeOfDay(t);
    assert f[0] == s[0] && f[1] == s[1] && f[3] == s[3] && f[4] == s[4] && f[6] == s[6] && f[7] == s[7];
  }

  function Abs(x: int): (r: int)
    ensures r >= 0 && (r == x || r == -x)
  {
    if x < 0 then -x else x
  }

  /**
   * IsGameTimeValid: a FormatError when the text does not parse; otherwise
   * whether the round time lies within the tolerance of `now`, bounds included.
   */
  function IsGameTimeValid(roundTime: string, now: Instant): (r: Result<bool, Fault>)
    ensures r.Failure? <==> ParseTimeOfDay(roundTime).None?
    ensures r.Failure? ==> r.error == TimeFormat
    ensures r.Success? ==>
      (r.value <==> -Tolerance * TicksPerSecond <= now - ParseTimeOfDay(roundTime).value * TicksPerSecond <= Tolerance * TicksPerSecond)
  {
    match ParseTimeOfDay(roundTime)
    case None => Failure(TimeFormat)
    case Some(t) => Success(Abs(now - t * TicksPerSecond) <= Tolerance * TicksPerSecond)
  }

  /** The gate is inclusive at exactly eight seconds either way and closed one tick beyond. */
  lemma ToleranceBoundary()
    ensures IsGameTimeValid("12:00:00", 12 * 3600 * TicksPerSecond + 8 * TicksPerSecond) == Success(true)
    ensures IsGameTimeValid("12:00:00", 12 * 3600 * TicksPerSecond - 8 * TicksPerSecond) == Success(true)
    ensures IsGameTimeValid("12:00:00", 12 * 3600 * TicksPerSecond + 8 * TicksPerSecond + 1) == Success(false)
    ensures IsGameTimeValid("12:00:00", 12 * 3600 * TicksPerSecond - 8 * TicksPerSecond - 1) == Success(false)
  {
  }

  /**
   * The round time is put on today's date, so a round just before midnight is
   * rejected just after midnight even though it is seconds old.
   */
  lemma MidnightIsNotBridged()
    ensures IsGameTimeValid("23:59:59", 2 * TicksPerSecond) == Success(false)
  {
  }

  /** Malformed round times are a format error, not a rejection. */
  lemma MalformedTimesThrow()
    ensures IsGameTimeValid("", 0) == Failure(TimeFormat)
    ensures IsGameTimeValid("24:00:00", 0) == Failure(TimeFormat)
    ensures IsGameTimeValid("9:00:00", 0) == Failure(TimeFormat)
  {
  }
}
