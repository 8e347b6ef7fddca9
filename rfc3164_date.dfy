/**
 * The RFC 3164 timestamp `Mmm dd HH:MM:SS` (section 4.1.2 of RFC 3164):
 * a total, allocation-free validation of exactly 15 bytes, with its own
 * error taxonomy and with the year inferred from the current time.
 */
module Rfc3164Date {
  import opened SyslogTypes
  import opened LogMessage

  /** The fixed length of the timestamp. */
  const TimestampLength: nat := 15

  /** The allowed skew into the future before a timestamp is taken to be last year's. */
  const FutureSkewDays: nat := 31

  /**
   * The current time, as far as the decoder needs it: the current year, and
   * whether a candidate time lies more than `FutureSkewDays` days after now.
   */
  datatype Clock = Clock(year: int, beyondSkew: Time -> bool)

  const MonthNames: seq<Bytes> := [
    ['J' as byte, 'a' as byte, 'n' as byte],
    ['F' as byte, 'e' as byte, 'b' as byte],
    ['M' as byte, 'a' as byte, 'r' as byte],
    ['A' as byte, 'p' as byte, 'r' as byte],
    ['M' as byte, 'a' as byte, 'y' as byte],
    ['J' as byte, 'u' as byte, 'n' as byte],
    ['J' as byte, 'u' as byte, 'l' as byte],
    ['A' as byte, 'u' as byte, 'g' as byte],
    ['S' as byte, 'e' as byte, 'p' as byte],
    ['O' as byte, 'c' as byte, 't' as byte],
    ['N' as byte, 'o' as byte, 'v' as byte],
    ['D' as byte, 'e' as byte, 'c' as byte]]

  /**
   * The month number of a three-byte, case-sensitive abbreviation, or -1
   * for anything that is not one of the twelve.
   */
  function ParseMonth(a: byte, b: byte, c: byte): (m: int)
    ensures m == -1 || 1 <= m <= 12
    ensures m != -1 ==> MonthNames[m - 1] == [a, b, c]
    ensures m == -1 <==> [a, b, c] !in MonthNames
  {
    var m :=
      if a == 'J' as byte then
        (if b == 'a' as byte && c == 'n' as byte then 1
         else if b == 'u' as byte && c == 'n' as byte then 6
         else if b == 'u' as byte && c == 'l' as byte then 7
         else -1)
      else if a == 'F' as byte then
        (if b == 'e' as byte && c == 'b' as byte then 2 else -1)
      else if a == 'M' as byte then
        (if b == 'a' as byte && c == 'r' as byte then 3
         else if b == 'a' as byte && c == 'y' as byte then 5
         else -1)
      else if a == 'A' as byte then
        (if b == 'p' as byte && c == 'r' as byte then 4
         else if b == 'u' as byte && c == 'g' as byte then 8
         else -1)
      else if a == 'S' as byte then
        (if b == 'e' as byte && c == 'p' as byte then 9 else -1)
      else if a == 'O' as byte then
        (if b == 'c' as byte && c == 't' as byte then 10 else -1)
      else if a == 'N' as byte then
        (if b == 'o' as byte && c == 'v' as byte then 11 else -1)
      else if a == 'D' as byte then
        (if b == 'e' as byte && c == 'c' as byte then 12 else -1)
      else -1;
    m
  }

  /**
   * Two bytes read as a number from 00 to 69 (first digit 0..6), or -1 when
   * they are not; a valid result splits back into the two digits.
   */
  function ParseDoubleDigit(a: byte, b: byte): (r: int)
    ensures r == -1 <==> !(ZERO <= a <= '6' as byte && IsDigit(b))
    ensures r != -1 ==> 0 <= r <= 69 && r / 10 == (a - ZERO) as int && r % 10 == (b - ZERO) as int
  {
    if a < ZERO || a > '6' as byte || b < ZERO || b > NINE then -1
    else (a - ZERO) as int * 10 + (b - ZERO) as int
  }

  /**
   * The day of month: space-padded single digit 0..9, or two digits as
   * ParseDoubleDigit reads them; -1 when neither form fits.
   */
  function ParseDay(a: byte, b: byte): (r: int)
    ensures -1 <= r <= 69
    ensures a == SP ==> (r == -1 <==> !IsDigit(b)) && (r != -1 ==> r == (b - ZERO) as int)
    ensures a != SP ==> r == ParseDoubleDigit(a, b)
  {
    if a == SP then
      (if b < ZERO || b > NINE then -1 else (b - ZERO) as int)
    else ParseDoubleDigit(a, b)
  }

  /** The separators of `Mmm dd HH:MM:SS` are in place. */
  predicate SeparatorsOk(b: Bytes)
    requires |b| == TimestampLength
  {
    b[3] == SP && b[6] == SP && b[9] == COLON && b[12] == COLON
  }

  /** Calendar fields within the ranges the decoder accepts (a leap second allowed). */
  predicate InRange(t: Time)
  {
    1 <= t.month <= 12 && 1 <= t.day <= 31 && 0 <= t.hour <= 23 &&
    0 <= t.minute <= 59 && 0 <= t.second <= 60
  }

  /** The time of the parsed fields in the current year, or the year before
      when that would lie too far in the future. */
  function InferYear(now: Clock, mon: int, day: int, hh: int, mm: int, ss: int): (t: Time)
    ensures t.month == mon && t.day == day && t.hour == hh && t.minute == mm && t.second == ss
    ensures t.year == now.year || t.year == now.year - 1
    ensures t.year == now.year - 1 <==> now.beyondSkew(Time(now.year, mon, day, hh, mm, ss))
  {
    var candidate := Time(now.year, mon, day, hh, mm, ss);
    if now.beyondSkew(candidate) then Time(now.year - 1, mon, day, hh, mm, ss) else candidate
  }

  /**
   * Parses the 15-byte timestamp. Checks run in a fixed order: the length,
   * the separators, the month, the day (unparsable: BadNumber, outside
   * 1..31: OutOfRange), then hour, minute and second (unparsable or outside
   * their range: OutOfRange).
   */
  function ParseTimestamp(b: Bytes, now: Clock): (r: Result<Time>)
    ensures r.Ok? ==> |b| == TimestampLength
  {
    if |b| != TimestampLength then Err(BadLength)
    else if !SeparatorsOk(b) then Err(BadFormat)
    else
      var mon := ParseMonth(b[0], b[1], b[2]);
      if mon == -1 then Err(BadMonth)
      else
        var day := ParseDay(b[4], b[5]);
        if day == -1 then Err(BadNumber)
        else if day < 1 || day > 31 then Err(OutOfRange)
        else
          var hh := ParseDoubleDigit(b[7], b[8]);
          if hh <= -1 || hh > 23 then Err(OutOfRange)
          else
            var mm := ParseDoubleDigit(b[10], b[11]);
            if mm <= -1 || mm > 59 then Err(OutOfRange)
            else
              var ss := ParseDoubleDigit(b[13], b[14]);
              if ss <= -1 || ss > 60 then Err(OutOfRange)
              else
                Ok(InferYear(now, mon, day, hh, mm, ss))
  }

  /** What the decoder accepts and which error it reports for what it rejects. */
  lemma ParseTimestampSpec(b: Bytes, now: Clock)
    ensures |b| != TimestampLength ==> ParseTimestamp(b, now) == Err(BadLength)
    ensures |b| == TimestampLength && !SeparatorsOk(b) ==> ParseTimestamp(b, now) == Err(BadFormat)
    ensures |b| == TimestampLength && SeparatorsOk(b) && [b[0], b[1], b[2]] !in MonthNames ==>
              ParseTimestamp(b, now) == Err(BadMonth)
    ensures var r := ParseTimestamp(b, now);
            r.Err? ==> r.error in {BadLength, BadFormat, BadMonth, BadNumber, OutOfRange}
    ensures var r := ParseTimestamp(b, now);
            r.Err? && r.error == BadNumber ==> |b| == TimestampLength && ParseDay(b[4], b[5]) == -1
    ensures var r := ParseTimestamp(b, now);
            r.Ok? ==> SeparatorsOk(b) && InRange(r.value) && MonthNames[r.value.month - 1] == b[..3]
    ensures var r := ParseTimestamp(b, now);
            r.Ok? ==> r.value == InferYear(now, r.value.month, ParseDay(b[4], b[5]),
                                           ParseDoubleDigit(b[7], b[8]), ParseDoubleDigit(b[10], b[11]),
                                           ParseDoubleDigit(b[13], b[14]))
    // Past the month, each numeric field decides the outcome in turn.
    ensures |b| == TimestampLength && SeparatorsOk(b) && [b[0], b[1], b[2]] in MonthNames ==>
              (ParseDay(b[4], b[5]) == -1 <==> ParseTimestamp(b, now) == Err(BadNumber))
    ensures |b| == TimestampLength && SeparatorsOk(b) && [b[0], b[1], b[2]] in MonthNames &&
            ParseDay(b[4], b[5]) != -1 && !(1 <= ParseDay(b[4], b[5]) <= 31) ==>
              ParseTimestamp(b, now) == Err(OutOfRange)
    ensures |b| == TimestampLength && SeparatorsOk(b) && [b[0], b[1], b[2]] in MonthNames &&
            1 <= ParseDay(b[4], b[5]) <= 31 &&
            !(0 <= ParseDoubleDigit(b[7], b[8]) <= 23 && 0 <= ParseDoubleDigit(b[10], b[11]) <= 59 &&
              0 <= ParseDoubleDigit(b[13], b[14]) <= 60) ==>
              ParseTimestamp(b, now) == Err(OutOfRange)
    ensures |b| == TimestampLength && SeparatorsOk(b) && [b[0], b[1], b[2]] in MonthNames &&
            1 <= ParseDay(b[4], b[5]) <= 31 && 0 <= ParseDoubleDigit(b[7], b[8]) <= 23 &&
            0 <= ParseDoubleDigit(b[10], b[11]) <= 59 && 0 <= ParseDoubleDigit(b[13], b[14]) <= 60 ==>
              ParseTimestamp(b, now) ==
                Ok(InferYear(now, ParseMonth(b[0], b[1], b[2]), ParseDay(b[4], b[5]),
                             ParseDoubleDigit(b[7], b[8]), ParseDoubleDigit(b[10], b[11]),
                             ParseDoubleDigit(b[13], b[14])))
  {
    if |b| == TimestampLength && SeparatorsOk(b) {
      assert b[..3] == [b[0], b[1], b[2]];
    }
  }

  // ---------------------------------------------------------------------
  // Printing a timestamp, and reading it back
  // ---------------------------------------------------------------------

  /** Two decimal digits of a number below 100, zero-padded. */
  function TwoDigits(n: nat): Bytes
    requires n < 100
  {
    [(ZERO as int + n / 10) as byte, (ZERO as int + n % 10) as byte]
  }

  /** The day of month as the wire writes it: space-padded below 10. */
  function DayField(d: nat): Bytes
    requires d < 100
  {
    if d < 10 then [SP, (ZERO as int + d) as byte] else TwoDigits(d)
  }

  /** The `Mmm dd HH:MM:SS` text of a time whose fields are in range. */
  function Stamp(t: Time): (b: Bytes)
    requires InRange(t)
    ensures |b| == TimestampLength
  {
    MonthNames[t.month - 1] + [SP] + DayField(t.day) + [SP] + TwoDigits(t.hour) + [COLON] +
    TwoDigits(t.minute) + [COLON] + TwoDigits(t.second)
  }

  /** Every abbreviation reads back as its month number. */
  lemma MonthNamesRoundTrip(m: int)
    requires 1 <= m <= 12
    ensures |MonthNames[m - 1]| == 3
    ensures ParseMonth(MonthNames[m - 1][0], MonthNames[m - 1][1], MonthNames[m - 1][2]) == m
  {
  }

  /**
   * Reading a printed timestamp gives back its month, day and time of day,
   * in the year the clock infers for them.
   */
  lemma StampRoundTrip(t: Time, now: Clock)
    requires InRange(t)
    ensures ParseTimestamp(Stamp(t), now) == Ok(InferYear(now, t.month, t.day, t.hour, t.minute, t.second))
  {
    var b := Stamp(t);
    MonthNamesRoundTrip(t.month);
    assert b[..3] == MonthNames[t.month - 1];
    assert b[3] == SP && b[6] == SP && b[9] == COLON && b[12] == COLON;
    assert ParseMonth(b[0], b[1], b[2]) == t.month;
    assert b[4..6] == DayField(t.day);
    assert ParseDay(b[4], b[5]) == t.day;
    assert b[7..9] == TwoDigits(t.hour);
    assert ParseDoubleDigit(b[7], b[8]) == t.hour;
    assert b[10..12] == TwoDigits(t.minute);
    assert ParseDoubleDigit(b[10], b[11]) == t.minute;
    assert b[13..15] == TwoDigits(t.second);
    assert ParseDoubleDigit(b[13], b[14]) == t.second;
  }

  /** A separator out of place is a format error, whatever else is wrong. */
  lemma BadFormatExample(now: Clock)
    ensures ParseTimestamp(Ascii("Jan 00 03.04:05"), now) == Err(BadFormat)
  {
  }

  /** An unknown abbreviation is a month error. */
  lemma BadMonthExample(now: Clock)
    ensures ParseTimestamp(Ascii("Bad 20 03:04:05"), now) == Err(BadMonth)
  {
  }

  /** Day 99 is not readable: its first digit is above 6. */
  lemma BadNumberExample(now: Clock)
    ensures ParseTimestamp(Ascii("Jan 99 03:04:05"), now) == Err(BadNumber)
  {
  }

  /** Day 00 is readable but out of range, and so is hour 25. */
  lemma OutOfRangeExamples(now: Clock)
    ensures ParseTimestamp(Ascii("Jan 00 03:04:05"), now) == Err(OutOfRange)
    ensures ParseTimestamp(Ascii("Jan 13 25:04:05"), now) == Err(OutOfRange)
  {
  }
}
