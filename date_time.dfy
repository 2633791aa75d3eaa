/** The integer part of `StopWatch` in date_time.h: the nanosecond-based
    unit constants, the "HH:MM:SS" rendering of a tick count, and the
    start point that `reset` and `sync` assign. Clock reads are passed in
    as the `now` parameter. */
module DateTime {

  import opened Wrappers
  import opened Text

  newtype int64 = x: int | -0x8000_0000_0000_0000 <= x < 0x8000_0000_0000_0000

  const kNanoSecond: int := 1
  const kMicroSecond: int := 1000
  const kMilliSecond: int := 1000000
  const kSecond: int := 1000000000
  const kMinute: int := 60000000000
  const kHour: int := 3600000000000

  /** C++ `/` on signed integers: the quotient truncated toward zero. */
  function TruncDiv(a: int, b: int): int
    requires b > 0
  {
    if a >= 0 then a / b else -((-a) / b)
  }

  /** C++ `%`: the remainder that goes with `TruncDiv`, with the sign of `a`. */
  function TruncRem(a: int, b: int): (r: int)
    requires b > 0
    ensures a >= 0 ==> 0 <= r < b
    ensures a < 0 ==> -b < r <= 0
  {
    a - b * TruncDiv(a, b)
  }

  /** `printf("%02lld", x)`: at least two characters, zero padded after the sign. */
  function Pad2(x: int): string {
    if 0 <= x < 10 then "0" + NatToDecimal(x) else IntToDecimal(x)
  }

  datatype Fields = Fields(hours: int, minutes: int, seconds: int)

  /** The three numbers `get_formated_time` prints. */
  function TimeFields(timestamp: int64): Fields {
    var t := timestamp as int;
    Fields(TruncDiv(t, kHour), TruncRem(TruncDiv(t, kMinute), 60), TruncRem(TruncDiv(t, kSecond), 60))
  }

  /** `StopWatch::get_formated_time(timestamp)`. */
  function GetFormatedTime(timestamp: int64): string {
    var f := TimeFields(timestamp);
    Pad2(f.hours) + ":" + Pad2(f.minutes) + ":" + Pad2(f.seconds)
  }

  /** `StopWatch::get_count_freq_Hz()`: clock ticks per second. */
  function GetCountFreqHz(): int {
    kSecond
  }

  /** Reads an "H..H:MM:SS" string (all fields unsigned) back as whole seconds. */
  function ParseFormatedTime(s: string): Option<int> {
    if |s| >= 8 && s[|s| - 6] == ':' && s[|s| - 3] == ':'
       && AllDigits(s[..|s| - 6]) && AllDigits(s[|s| - 5..|s| - 3]) && AllDigits(s[|s| - 2..])
    then Some(3600 * DecimalValue(s[..|s| - 6]) + 60 * DecimalValue(s[|s| - 5..|s| - 3]) + DecimalValue(s[|s| - 2..]))
    else None
  }

  /** `StopWatch`: the start point and the last time stamp, in clock ticks. */
  class StopWatch {
    var startTimePoint: int
    var timeStamp: int

    /** The constructor reads the clock once. */
    constructor (now: int)
      ensures startTimePoint == now && timeStamp == 0
    {
      startTimePoint := now;
      timeStamp := 0;
    }

    method Reset(now: int)
      modifies this
      ensures startTimePoint == now && timeStamp == old(timeStamp)
    {
      startTimePoint := now;
    }

    /** `sync(source)`: copy the start point of another stop watch. */
    method Sync(source: StopWatch)
      modifies this
      ensures startTimePoint == old(source.startTimePoint) && timeStamp == old(timeStamp)
    {
      startTimePoint := source.startTimePoint;
    }

    /** `get_timestamp()`: ticks elapsed since the start point. */
    method GetTimestamp(now: int) returns (count: int)
      modifies this
      ensures timeStamp == now && startTimePoint == old(startTimePoint)
      ensures count == now - startTimePoint
    {
      timeStamp := now;
      count := timeStamp - startTimePoint;
    }
  }

  // ---------------------------------------------------------------------
  // Properties

  /** Each unit is an exact multiple of the next smaller one, and the clock
      frequency is one second's worth of nanosecond ticks. */
  lemma UnitsNest()
    ensures kHour == 60 * kMinute && kMinute == 60 * kSecond && kSecond == 1000 * kMilliSecond
    ensures kMilliSecond == 1000 * kMicroSecond && kMicroSecond == 1000 * kNanoSecond
    ensures GetCountFreqHz() == kSecond && GetCountFreqHz() * kNanoSecond == kSecond
  {
  }

  lemma MulMonotone(d: int, a: int, b: int)
    requires d > 0 && a <= b
    ensures d * a <= d * b
  {
    var k := b - a;
    assert d * b == d * a + d * k;
  }

  /** Euclidean division is determined by quotient and remainder. */
  lemma DivUnique(x: int, d: int, q: int, r: int)
    requires d > 0 && x == d * q + r && 0 <= r < d
    ensures x / d == q
  {
    var q', r' := x / d, x % d;
    assert x == d * q' + r' && 0 <= r' < d;
    if q' > q {
      MulMonotone(d, q + 1, q');
    } else if q' < q {
      MulMonotone(d, q' + 1, q);
    }
  }

  lemma NatDivNested(x: nat, b: nat, c: nat)
    requires b > 0 && c > 0
    ensures x / b / c == x / (b * c)
  {
    var bc := b * c;
    var q := x / bc;
    var r := x % bc;
    var r1 := r / b;
    var r0 := r % b;
    assert x == bc * q + r;
    assert r == b * r1 + r0;
    assert bc * q + b * r1 == b * (c * q + r1);
    DivUnique(x, b, c * q + r1, r0);
    if r1 >= c {
      MulMonotone(b, c, r1);
    }
    DivUnique(c * q + r1, c, q, r1);
  }

  /** Truncating division twice equals truncating division by the product. */
  lemma TruncDivNested(a: int, b: int, c: int)
    requires b > 0 && c > 0
    ensures TruncDiv(TruncDiv(a, b), c) == TruncDiv(a, b * c)
  {
    var bc := b * c;
    if a >= 0 {
      NatDivNested(a, b, c);
    } else {
      var x: int := -a;
      var y: int := x / b;
      NatDivNested(x, b, c);
      assert TruncDiv(a, b) == -y;
      assert TruncDiv(a, bc) == -(x / bc);
      if y == 0 {
        assert TruncDiv(0, c) == 0;
      } else {
        assert TruncDiv(-y, c) == -(y / c);
      }
    }
  }

  /** The minute and second fields lie in [0, 59] for a non-negative stamp
      and in [-59, 0] for a negative one; the hour field is not capped. */
  lemma TimeFieldsRange(timestamp: int64)
    ensures timestamp >= 0 ==> 0 <= TimeFields(timestamp).minutes < 60 && 0 <= TimeFields(timestamp).seconds < 60
    ensures timestamp >= 0 ==> TimeFields(timestamp).hours == timestamp as int / kHour
    ensures timestamp < 0 ==> -60 < TimeFields(timestamp).minutes <= 0 && -60 < TimeFields(timestamp).seconds <= 0
  {
  }

  /** The three fields recombine to the stamp truncated (toward zero) to whole
      seconds; for a non-negative stamp that is `t - t % kSecond`. */
  lemma TimeFieldsRecombine(timestamp: int64)
    ensures var f := TimeFields(timestamp);
            f.hours * kHour + f.minutes * kMinute + f.seconds * kSecond == TruncDiv(timestamp as int, kSecond) * kSecond
    ensures timestamp >= 0 ==>
            var f := TimeFields(timestamp);
            f.hours * kHour + f.minutes * kMinute + f.seconds * kSecond == timestamp as int - timestamp as int % kSecond
  {
    var t := timestamp as int;
    var secs := TruncDiv(t, kSecond);
    var mins := TruncDiv(secs, 60);
    TruncDivNested(t, kSecond, 60);
    TruncDivNested(secs, 60, 60);
    TruncDivNested(t, kSecond, 3600);
    assert TruncDiv(t, kMinute) == mins;
    assert TruncDiv(t, kHour) == TruncDiv(mins, 60);
    var f := TimeFields(timestamp);
    assert f.hours * 3600 + f.minutes * 60 + f.seconds == secs;
  }

  lemma Pad2Digits(x: int)
    requires x >= 0
    ensures AllDigits(Pad2(x)) && |Pad2(x)| >= 2 && DecimalValue(Pad2(x)) == x
    ensures x < 100 ==> |Pad2(x)| == 2
  {
    DecimalValueOfNat(x);
    if x < 10 {
      var s := Pad2(x);
      assert s[..1] == "0";
      assert DecimalValue("0") == 0;
    } else if x < 100 {
      assert NatToDecimal(x) == NatToDecimal(x / 10) + [DigitChar(x % 10)];
    }
  }

  /** For a non-negative stamp the formatted string reads back as the stamp
      in whole seconds: each field is zero padded to at least two digits and
      the minute and second fields to exactly two. */
  lemma GetFormatedTimeRoundTrip(timestamp: int64)
    requires timestamp >= 0
    ensures ParseFormatedTime(GetFormatedTime(timestamp)) == Some(TruncDiv(timestamp as int, kSecond))
  {
    var f := TimeFields(timestamp);
    TimeFieldsRange(timestamp);
    TimeFieldsRecombine(timestamp);
    assert f.hours >= 0;
    Pad2Digits(f.hours);
    Pad2Digits(f.minutes);
    Pad2Digits(f.seconds);
    var h, m, s := Pad2(f.hours), Pad2(f.minutes), Pad2(f.seconds);
    var str := GetFormatedTime(timestamp);
    assert str == h + ":" + m + ":" + s;
    assert |m| == 2 && |s| == 2;
    assert |str| == |h| + 6;
    assert str[..|str| - 6] == h;
    assert str[|str| - 5..|str| - 3] == m;
    assert str[|str| - 2..] == s;
    assert f.hours * 3600 + f.minutes * 60 + f.seconds == TruncDiv(timestamp as int, kSecond);
  }
}
